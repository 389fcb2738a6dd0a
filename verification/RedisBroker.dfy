/** The Redis broker: each script is one atomic step over the task hashes and the structures beside them. */
module RedisBroker {
  import opened Model
  import opened Deps
  import opened Cascade
  import opened CascadeLoop
  import opened Spec
  import opened Plain
  import opened Wiring
  import opened Graph
  import opened Invariants
  import opened Reaping
  import opened Encodings
  import opened RedisIndex

  /** All members once, in some order (SMEMBERS and a sort, or ZRANGEBYSCORE). */
  method Members(s: set<Id>) returns (ids: seq<Id>)
    ensures NoDup(ids) && Elems(ids) == s && forall x :: x in ids <==> x in s
  {
    ids := [];
    var todo := s;
    while todo != {}
      invariant NoDup(ids) && (forall x :: x in ids <==> x in s && x !in todo) && todo <= s
      decreases todo
    {
      var x :| x in todo;
      ids := ids + [x];
      todo := todo - {x};
    }
  }

  class Store {
    // the task hashes, and two hash fields no task exposes
    var recs: Recs
    var parents: map<Id, string>
    var replayed: set<Id>
    // queue structures
    var pending: map<string, seq<Id>>
    var delayed: map<string, map<Id, int>>
    var inflight: map<Id, int>
    // indexes
    var byStatus: map<Status, set<Id>>
    var stats: map<string, int>
    var children: map<Id, set<Id>>
    var bk: map<Key, seq<Id>>
    var cfg: Config

    constructor (c: Config)
      ensures Indexed() && Linked() && Abs() == State(map[], map[], {}) && cfg == Normalized(c)
    {
      recs, parents, replayed := map[], map[], {};
      pending, delayed, inflight := map[], map[], map[];
      byStatus, stats, children, bk := map[], map[], map[], map[];
      cfg := Normalized(c);
      new;
      forall typ, s ensures Stat(stats, Field(typ, s)) == |Group(recs, typ, s)| {
        assert Group(recs, typ, s) == {};
      }
    }

    /** What the hashes say. */
    ghost function Abs(): State
      reads this
    {
      State(recs, bk, replayed)
    }

    /** Queues, inflight, status sets and counters agree with the hashes. */
    ghost predicate Indexed()
      reads this
    {
      QueueInv(recs, pending, delayed) && RestInv(recs, inflight, byStatus, stats)
    }

    ghost predicate Linked()
      reads this
    {
      LinkInv(recs, children, parents, bk)
    }

    // ---- common.lua ----

    /** Status set and counters follow a hash that has just changed status: they agreed with the hashes before the write
        and agree with them again. */
    method MoveStatus(id: Id, typ: string, from: Status, to: Status, ghost before: Recs)
      requires id in before && id in recs && recs == before[id := recs[id]]
      requires from == before[id].task.status && to == recs[id].task.status
               && typ == before[id].task.typ == recs[id].task.typ
      requires StatusInv(before, byStatus) && StatsInv(before, stats)
      modifies this`byStatus, this`stats
      ensures StatusInv(recs, byStatus) && StatsInv(recs, stats)
    {
      hide StatusInv, StatsInv, Field;
      StatusShift(before, byStatus, id, recs[id]);
      StatsShift(before, stats, id, recs[id]);
      byStatus := byStatus[from := Bucket(byStatus, from) - {id}];
      byStatus := byStatus[to := Bucket(byStatus, to) + {id}];
      stats := Bumped(stats, Field(typ, from), -1);
      stats := Bumped(stats, Field(typ, to), 1);
    }

    /** Takes the task out of its queue, wherever it is in it, and nothing else out of anywhere. */
    method RemoveFromQueue(id: Id, q: string, ghost before: Recs)
      requires QueueInv(before, pending, delayed) && id in before && before[id].task.queue == q
      modifies this`pending, this`delayed
      ensures QueuesBut(before, pending, delayed, id)
    {
      hide QueueInv, QueuesBut;
      RemoveDetaches(before, pending, delayed, id);
      pending := pending[q := Without(ListOf(pending, q), id)];
      delayed := delayed[q := ZsetOf(delayed, q) - {id}];
    }

    /** Puts a queued task that is in no queue structure into its own: then every queued task is in its queue exactly
        once again, this one in the zset when its run time lies ahead and on the list otherwise. */
    method PlaceInQueue(id: Id, q: string, runAt: int, now: int)
      requires id in recs && Queued(recs[id]) && recs[id].task.queue == q && recs[id].task.runAt == runAt
      requires QueuesBut(recs, pending, delayed, id)
      modifies this`pending, this`delayed
      ensures QueueInv(recs, pending, delayed)
      ensures if runAt > now then id in ZsetOf(delayed, q) else id in ListOf(pending, q)
      // first in, first out: a list grows at its end
      ensures ListOf(pending, q) == old(ListOf(pending, q)) + if runAt > now then [] else [id]
      ensures forall q' :: q' != q ==> ListOf(pending, q') == old(ListOf(pending, q'))
    {
      hide QueueInv, QueuesBut;
      assert recs[id := recs[id]] == recs;
      if runAt > now {
        EnterZset(recs, pending, delayed, id, recs[id]);
        delayed := delayed[q := ZsetOf(delayed, q)[id := runAt]];
      } else {
        EnterList(recs, pending, delayed, id, recs[id]);
        pending := pending[q := ListOf(pending, q) + [id]];
      }
    }

    /** Final fields, lease, queue, inflight, index and counters of a canceled task. */
    method ForceCancel(id: Id, reason: ErrText, now: int)
      requires Indexed() && id in recs
      modifies this`recs, this`pending, this`delayed, this`inflight, this`byStatus, this`stats
      ensures recs == old(recs)[id := CanceledRec(old(recs[id]), reason, now)] && Indexed()
    {
      hide QueueInv, QueuesBut, InflightInv, StatusInv, StatsInv;
      ghost var before := recs;
      var r := recs[id];
      var typ, q, from := r.task.typ, r.task.queue, r.task.status;
      r := r.(task := r.task.(status := Canceled, lastError := reason, finishedAt := now));
      r := r.(task := r.task.(leaseToken := ""), leaseUntil := 0);
      InflightShift(recs, inflight, id, r);
      recs := recs[id := r];
      RemoveFromQueue(id, q, before);
      LeaveQueue(before, pending, delayed, id, r);
      inflight := inflight - {id};
      MoveStatus(id, typ, from, Canceled, before);
    }

    /** A task leaves its lease or its blocked state for a queue. */
    method EnterQueue(id: Id, r: Rec, now: int)
      requires Indexed() && id in recs && !Queued(recs[id]) && Queued(r)
      requires r.task.typ == recs[id].task.typ
      modifies this`recs, this`pending, this`delayed, this`inflight, this`byStatus, this`stats
      ensures recs == old(recs)[id := r] && Indexed()
    {
      hide QueueInv, QueuesBut, InflightInv, StatusInv, StatsInv;
      ghost var before := recs;
      NotQueuedDetached(recs, pending, delayed, id);
      ButFrame(recs, pending, delayed, id, r);
      InflightShift(recs, inflight, id, r);
      var from := recs[id].task.status;
      recs := recs[id := r];
      inflight := inflight - {id};
      PlaceInQueue(id, r.task.queue, r.task.runAt, now);
      MoveStatus(id, r.task.typ, from, r.task.status, before);
    }

    /** A running task ends without being canceled. */
    method EndRunning(id: Id, r: Rec)
      requires Indexed() && id in recs && recs[id].task.status.Running? && IsFinal(r.task.status)
      requires r.task.typ == recs[id].task.typ
      modifies this`recs, this`inflight, this`byStatus, this`stats
      ensures recs == old(recs)[id := r] && Indexed()
    {
      hide QueueInv, QueuesBut, InflightInv, StatusInv, StatsInv;
      ghost var before := recs;
      NotQueuedDetached(recs, pending, delayed, id);
      LeaveQueue(recs, pending, delayed, id, r);
      InflightShift(recs, inflight, id, r);
      recs := recs[id := r];
      inflight := inflight - {id};
      MoveStatus(id, r.task.typ, Running, r.task.status, before);
    }

    /** Hash fields that no index depends on. */
    method Rewrite(id: Id, r: Rec)
      requires Indexed() && id in recs && r.task.status == recs[id].task.status && r.leaseUntil == recs[id].leaseUntil
      requires r.task.typ == recs[id].task.typ && r.task.queue == recs[id].task.queue
               && r.task.runAt == recs[id].task.runAt
      modifies this`recs
      ensures recs == old(recs)[id := r] && Indexed()
    {
      hide QueueInv, RestInv;
      QueueFrame(recs, pending, delayed, id, r);
      RestFrame(recs, inflight, byStatus, stats, id, r);
      recs := recs[id := r];
    }

    /** One child of a final parent. */
    method Visit(p: Id, ps: Status, c: Id, now: int) returns (canceled: bool)
      requires Indexed() && c in recs
      modifies this`recs, this`pending, this`delayed, this`inflight, this`byStatus, this`stats
      ensures recs == old(recs)[c := VisitChild(p, ps, old(recs[c]), now)] && Indexed()
      ensures canceled <==> !IsFinal(old(recs[c]).task.status) && recs[c].task.status.Canceled?
    {
      hide QueueInv, RestInv;
      var r := recs[c];
      var (left, action) := DecideOnParentFinal(ps, r.task.status, r.task.policy, r.pendingParents);
      canceled := false;
      if action.ChildWake? {
        if CanTransition(r.task.status, Pending) {
          EnterQueueFromBlocked(c, r.(task := r.task.(status := Pending), pendingParents := left), now);
        }
      } else if action.ChildCancel? {
        if r.task.status.Running? {
          Rewrite(c, r.(cancelRequested := true));
        } else if CanTransition(r.task.status, Canceled) {
          Rewrite(c, r.(pendingParents := left));
          ForceCancel(c, ParentFailureReason(p, ps), now);
          canceled := true;
        }
      } else {
        Rewrite(c, r.(pendingParents := left));
      }
    }

    /** blocked -> pending: no lease to drop. */
    method EnterQueueFromBlocked(id: Id, r: Rec, now: int)
      requires Indexed() && id in recs && recs[id].task.status.Blocked? && Queued(r) && r.task.typ == recs[id].task.typ
      modifies this`recs, this`pending, this`delayed, this`byStatus, this`stats
      ensures recs == old(recs)[id := r] && Indexed()
    {
      hide QueueInv, QueuesBut, StatusInv, StatsInv, InflightInv;
      ghost var before := recs;
      InflightBlocked(recs, inflight, id, r);
      NotQueuedDetached(recs, pending, delayed, id);
      ButFrame(recs, pending, delayed, id, r);
      recs := recs[id := r];
      PlaceInQueue(id, r.task.queue, r.task.runAt, now);
      MoveStatus(id, r.task.typ, Blocked, r.task.status, before);
    }

    /** The whole subtree in one script: each layer visits direct children, canceled ones join the work list. */
    method Propagate(root: Id, now: int)
      requires Indexed() && KidsExact(recs, children) && root in recs && IsFinal(StatusOf(recs, root))
      modifies this`recs, this`pending, this`delayed, this`inflight, this`byStatus, this`stats
      ensures Outcome(old(recs), {root}, now, recs) && Indexed()
    {
      hide Progress, WorkListOk, Outcome, VisitChild, QueueInv, RestInv, KidsExact, Parents, NoDup, Kids;
      ghost var pre := recs;
      var work := [(root, recs[root].task.status)];
      ghost var queue := [root];
      var i := 0;
      ProgressStart(pre, root, now);
      while i < |work|
        invariant Progress(pre, root, queue, i, {}, now, recs) && Indexed() && i <= |work|
        invariant |work| == |queue| && forall j :: 0 <= j < |work| ==> work[j].0 == queue[j]
        invariant forall j :: 0 <= j < |work| ==> work[j].0 in recs && work[j].1 == StatusOf(recs, work[j].0)
                                                  && IsFinal(work[j].1)
        decreases |pre| - i
      {
        ProgressBounds(pre, root, queue, i, {}, now, recs);
        QueueBounded(pre, root, queue);
        var (p, ps) := work[i];
        var kids := Members(Kids(children, p));
        ghost var done: set<Id> := {};
        for k := 0 to |kids|
          invariant Progress(pre, root, queue, i, done, now, recs) && Indexed()
          invariant i < |work| == |queue| && work[i] == (p, ps) && forall j :: 0 <= j < |work| ==> work[j].0 == queue[j]
          invariant forall j :: 0 <= j < |work| ==> work[j].0 in recs && work[j].1 == StatusOf(recs, work[j].0)
                                                    && IsFinal(work[j].1)
          invariant done == Elems(kids[..k])
        {
          var c := kids[k];
          ProgressBounds(pre, root, queue, i, done, now, recs);
          KidFresh(pre, children, p, kids, k);
          ProgressVisit(pre, root, queue, i, done, now, recs, c);
          FinalChild(p, ps, recs[c], now);
          var canceled := Visit(p, ps, c, now);
          if canceled {
            work := work + [(c, Canceled)];
            queue := queue + [c];
          }
          done := done + {c};
        }
        KidsAll(pre, children, p, kids);
        ProgressNext(pre, root, queue, i, done, now, recs);
        i := i + 1;
      }
      ProgressFinish(pre, root, queue, now, recs);
    }

    /** The token check of the scripts. */
    method CheckLease(id: Id, token: Token) returns (e: Option<Error>)
      ensures e == LeaseError(recs, id, token)
      ensures e.None? <==> id in recs && Holds(recs[id], token)
    {
      if id !in recs { return Some(TaskNotFound(id)); }
      var st := recs[id].task.status;
      if !st.Running? || token == "" || recs[id].task.leaseToken != token { return Some(LeaseLost(id)); }
      e := None;
    }

    // ---- finish.lua, heartbeat.lua ----

    /** Settle the dependents of a task that has just been written as final. */
    method Settle(id: Id, now: int, ghost before: Recs)
      requires Indexed() && id in recs && IsFinal(StatusOf(recs, id))
      requires SameDeps(before, recs) && LinkInv(before, children, parents, bk)
      modifies this`recs, this`pending, this`delayed, this`inflight, this`byStatus, this`stats
      ensures Outcome(old(recs), {id}, now, recs) && Indexed() && Linked() && recs.Keys == before.Keys
    {
      hide QueueInv, RestInv, Outcome, KidsExact, FieldsOk, ParentsPresent, ChainsKnown;
      ghost var mid := recs;
      LinksKept(before, mid, children, parents, bk);
      Propagate(id, now);
      OutcomeSameDeps(mid, {id}, now, recs);
      LinksKept(mid, recs, children, parents, bk);
    }

    method Ack(id: Id, token: Token, result: Option<Bytes>, now: int) returns (reply: Reply)
      requires Indexed() && Linked()
      modifies this`recs, this`pending, this`delayed, this`inflight, this`byStatus, this`stats
      ensures Indexed() && Linked() && AckStep(old(Abs()), id, token, result, now, Abs(), reply)
    {
      hide QueueInv, RestInv, LinkInv, Outcome;
      var e := CheckLease(id, token);
      if e.Some? { return Err(e.value); }
      ghost var before := recs;
      var r := Released(recs[id].(task := recs[id].task.(status := Completed, finishedAt := now),
                                  cancelRequested := false));
      if result.Some? {
        r := r.(task := r.task.(result := Kept(result)));
      }
      EndRunning(id, r);
      Settle(id, now, before);
      reply := Ok;
    }

    /** The failed or retrying hash: counters, error text, and whether retries are spent. */
    method CountFailure(r0: Rec, msg: string, kind: FailKind, at: int, now: int) returns (r: Rec, toFailed: bool)
      ensures toFailed == IsFinal(r.task.status)
      ensures r == FailRec(cfg, r0, msg, kind, at, now)
    {
      r := r0;
      toFailed := false;
      var lastError := Message(msg);
      match kind {
        case FailBusiness =>
          r := r.(task := r.task.(attempts := r.task.attempts + 1));
          toFailed := r.task.attempts > r.task.maxRetry;
        case FailThrottled =>
          r := r.(task := r.task.(throttled := r.task.throttled + 1));
          if r.task.throttled >= cfg.throttledMax {
            toFailed := true;
            lastError := ThrottledTimes(r.task.throttled);
          }
        case FailSkip =>
          toFailed := true;
      }
      r := r.(task := r.task.(lastError := lastError));
      if toFailed {
        r := Released(r.(task := r.task.(status := Failed, finishedAt := now), cancelRequested := false));
      } else {
        r := Released(r.(task := r.task.(status := Retrying, runAt := at)));
      }
    }

    /** `asked` is the client's clock reading, taken before the script's `now`; it stands in for a missing
        retry time. */
    method Fail(id: Id, token: Token, msg: string, kind: FailKind, retryAt: int, asked: int, now: int)
      returns (reply: Reply)
      requires Indexed() && Linked()
      modifies this`recs, this`pending, this`delayed, this`inflight, this`byStatus, this`stats
      ensures Indexed() && Linked()
      ensures FailStep(cfg, old(Abs()), id, token, msg, kind,
                       if retryAt == 0 then asked else retryAt, now, Abs(), reply)
    {
      hide QueueInv, RestInv, LinkInv, Outcome, FailRec;
      var at := if retryAt == 0 then asked else retryAt;
      var e := CheckLease(id, token);
      if e.Some? { return Err(e.value); }
      ghost var before := recs;
      var r, toFailed := CountFailure(recs[id], msg, kind, at, now);
      FailKeeps(cfg, before[id], msg, kind, at, now);
      reply := Ok;
      if toFailed {
        EndRunning(id, r);
        Settle(id, now, before);
      } else {
        EnterQueue(id, r, now);
        LinksKept(before, recs, children, parents, bk);
      }
    }

    method Cancel(id: Id, now: int) returns (reply: Reply)
      requires Indexed() && Linked()
      modifies this`recs, this`pending, this`delayed, this`inflight, this`byStatus, this`stats
      ensures Indexed() && Linked() && CancelStep(old(Abs()), id, now, Abs(), reply)
    {
      hide QueueInv, RestInv, LinkInv, Outcome;
      if id !in recs { return Err(TaskNotFound(id)); }
      ghost var before := recs;
      var st := recs[id].task.status;
      if IsFinal(st) { return Err(AlreadyFinal(id)); }
      reply := Ok;
      if st.Running? {
        Rewrite(id, recs[id].(cancelRequested := true));
        LinksKept(before, recs, children, parents, bk);
        return;
      }
      ForceCancel(id, CanceledByRequest, now);
      Settle(id, now, before);
    }

    method FinishCanceled(id: Id, token: Token, now: int) returns (reply: Reply)
      requires Indexed() && Linked()
      modifies this`recs, this`pending, this`delayed, this`inflight, this`byStatus, this`stats
      ensures Indexed() && Linked() && FinishCanceledStep(old(Abs()), id, token, now, Abs(), reply)
    {
      hide QueueInv, RestInv, LinkInv, Outcome;
      var e := CheckLease(id, token);
      if e.Some? { return Err(e.value); }
      ghost var before := recs;
      Rewrite(id, recs[id].(cancelRequested := false));
      ForceCancel(id, CanceledByRequest, now);
      assert recs == before[id := CanceledRec(before[id], CanceledByRequest, now).(cancelRequested := false)];
      Settle(id, now, before);
      reply := Ok;
    }

    method Requeue(id: Id, token: Token, now: int) returns (reply: Reply)
      requires Indexed() && Linked()
      modifies this`recs, this`pending, this`delayed, this`inflight, this`byStatus, this`stats
      ensures Indexed() && Linked() && RequeueStep(old(Abs()), id, token, Abs(), reply)
    {
      hide QueueInv, RestInv, LinkInv;
      var e := CheckLease(id, token);
      if e.Some? { return Err(e.value); }
      ghost var before := recs;
      var r := recs[id];
      EnterQueue(id, r.(task := r.task.(status := Pending, leaseToken := ""), leaseUntil := 0,
                        cancelRequested := false), now);
      LinksKept(before, recs, children, parents, bk);
      reply := Ok;
    }

    /** The time to live the heartbeat script picks: any override for the queue, even one that is not positive. */
    method PickTtl(q: string) returns (ttl: int)
      ensures ttl == ScriptTtl(cfg, q)
    {
      ttl := cfg.defaultTTL;
      var todo := cfg.ttl.Keys;
      while todo != {}
        invariant todo <= cfg.ttl.Keys
        invariant ttl == if q in cfg.ttl && q !in todo then cfg.ttl[q] else cfg.defaultTTL
        decreases todo
      {
        var k :| k in todo;
        if k == q {
          ttl := cfg.ttl[k];
        }
        todo := todo - {k};
      }
    }

    /** A new lease end in the hash and as the inflight score. */
    method Renew(id: Id, until: int)
      requires Indexed() && id in recs && recs[id].task.status.Running?
      modifies this`recs, this`inflight
      ensures recs == old(recs)[id := old(recs[id]).(leaseUntil := until)] && Indexed()
    {
      hide QueueInv, RestInv;
      var r := recs[id].(leaseUntil := until);
      QueueFrame(recs, pending, delayed, id, r);
      RenewFrame(recs, inflight, byStatus, stats, id, r);
      recs := recs[id := r];
      inflight := inflight[id := until];
    }

    method Heartbeat(id: Id, token: Token, now: int) returns (reply: Reply)
      requires Indexed() && Linked()
      modifies this`recs, this`inflight
      ensures Indexed() && Linked() && ScriptHeartbeat(cfg, old(Abs()), id, token, now, Abs(), reply)
      ensures id in recs && Holds(recs[id], token) ==>
                var q := recs[id].task.queue;
                recs[id].leaseUntil == now + if q in cfg.ttl then cfg.ttl[q] else cfg.defaultTTL
    {
      hide QueueInv, LinkInv, RestInv;
      var e := CheckLease(id, token);
      if e.Some? { return Err(e.value); }
      ghost var before := recs;
      var ttl := PickTtl(recs[id].task.queue);
      Renew(id, now + ttl);
      LinksKept(before, recs, children, parents, bk);
      reply := if recs[id].cancelRequested then Err(TaskCanceled(id)) else Ok;
    }

    // ---- claim.lua ----

    /** Entries of the given queues whose time has come go back to the list. */
    method MoveDue(queues: seq<string>, now: int)
      requires QueueInv(recs, pending, delayed)
      modifies this`pending, this`delayed
      ensures QueueInv(recs, pending, delayed) && forall q :: q in queues ==> AllFuture(ZsetOf(delayed, q), now)
    {
      hide QueueInv;
      for j := 0 to |queues|
        invariant QueueInv(recs, pending, delayed)
        invariant forall i :: 0 <= i < j ==> AllFuture(ZsetOf(delayed, queues[i]), now)
      {
        MoveDueOf(queues[j], now);
      }
    }

    method MoveDueOf(q: string, now: int)
      requires QueueInv(recs, pending, delayed)
      modifies this`pending, this`delayed
      ensures QueueInv(recs, pending, delayed) && AllFuture(ZsetOf(delayed, q), now)
      ensures forall q' :: q' != q ==> ZsetOf(delayed, q') == old(ZsetOf(delayed, q'))
      ensures old(ListOf(pending, q)) <= ListOf(pending, q)
    {
      hide QueueInv, QueuesBut;
      var due := Members(set x | x in ZsetOf(delayed, q) && ZsetOf(delayed, q)[x] <= now);
      for k := 0 to |due|
        invariant QueueInv(recs, pending, delayed)
        invariant forall x :: x in ZsetOf(delayed, q) ==> ZsetOf(delayed, q)[x] > now || x in due[k..]
        invariant forall x :: x in due[k..] ==> x in ZsetOf(delayed, q)
        invariant forall q' :: q' != q ==> ZsetOf(delayed, q') == old(ZsetOf(delayed, q'))
        invariant old(ListOf(pending, q)) <= ListOf(pending, q)
      {
        var id := due[k];
        assert due[k..] == [id] + due[k + 1..];
        assert id in due[k..];
        ZremDetaches(recs, pending, delayed, q, id);
        EnterList(recs, pending, Undelayed(delayed, id, q), id, recs[id]);
        assert recs[id := recs[id]] == recs;
        delayed := delayed[q := ZsetOf(delayed, q) - {id}];
        pending := pending[q := ListOf(pending, q) + [id]];
      }
    }

    /** Pop until a task can be claimed: entries without a queued hash are dropped (stale), early ones go back to
        the zset. */
    method PopReady(q: string, token: Token, now: int) returns (got: Option<Id>, ghost stale: bool)
      requires Indexed() && AllFuture(ZsetOf(delayed, q), now)
      modifies this`recs, this`pending, this`delayed, this`inflight, this`byStatus, this`stats
      ensures Indexed() && !stale
      ensures got.None? ==> recs == old(recs) && ListOf(pending, q) == [] && AllFuture(ZsetOf(delayed, q), now)
                            && SameElsewhere(old(pending), old(delayed), pending, delayed, q)
      ensures got.Some? ==> InQueue(old(recs), got.value, q) && old(recs)[got.value].task.runAt <= now
                            && recs == old(recs)[got.value := ClaimRec(cfg, old(recs)[got.value], token, now)]
      // first in, first out: the first of the list that is due
      ensures got.Some? ==> IsFirstDue(old(recs), old(ListOf(pending, q)), now, got.value)
    {
      hide QueueInv, QueuesBut, RestInv, NotDueYet, IsFirstDue, SameElsewhere;
      got := None;
      stale := false;
      ghost var list, k := ListOf(pending, q), 0;
      NoneBefore(recs, list, now);
      SameAtFirst(pending, delayed, q);
      while ListOf(pending, q) != []
        invariant k <= |list| && ListOf(pending, q) == list[k..] && NotDueYet(recs, list[..k], now)
        invariant Indexed() && !stale && recs == old(recs) && AllFuture(ZsetOf(delayed, q), now)
        invariant SameElsewhere(old(pending), old(delayed), pending, delayed, q)
        decreases |ListOf(pending, q)|
      {
        PopDetaches(recs, pending, delayed, q);
        var id := ListOf(pending, q)[0];
        OneMoreBefore(recs, list, k, now);
        SameAfter(old(pending), old(delayed), pending, delayed, q, list[k + 1..], map[]);
        pending := pending[q := ListOf(pending, q)[1..]];
        if id in recs && Queued(recs[id]) {
          var r := recs[id];
          if r.task.runAt > now {
            EnterZset(recs, pending, delayed, id, r);
            assert recs[id := r] == recs;
            SameAfter(old(pending), old(delayed), pending, delayed, q, [], ZsetOf(delayed, q)[id := r.task.runAt]);
            delayed := delayed[q := ZsetOf(delayed, q)[id := r.task.runAt]];
            k := k + 1;
          } else {
            ClaimPopped(id, token, now);
            return Some(id), stale;
          }
        } else {
          stale := true;
        }
      }
    }

    /** Writes the claim: status, token, lease, first start, inflight, index. */
    method ClaimPopped(id: Id, token: Token, now: int)
      requires id in recs && Queued(recs[id]) && QueuesBut(recs, pending, delayed, id)
               && RestInv(recs, inflight, byStatus, stats)
      modifies this`recs, this`inflight, this`byStatus, this`stats
      ensures recs == old(recs)[id := ClaimRec(cfg, old(recs[id]), token, now)] && Indexed()
    {
      hide QueueInv, QueuesBut, InflightInv, StatusInv, StatsInv;
      ghost var before := recs;
      var t := recs[id].task;
      var r := recs[id].(task := t.(status := Running, leaseToken := token), leaseUntil := now + TtlFor(cfg, t.queue));
      if t.startedAt == 0 {
        r := r.(task := r.task.(startedAt := now));
      }
      LeaveQueue(recs, pending, delayed, id, r);
      InflightShift(recs, inflight, id, r);
      recs := recs[id := r];
      inflight := inflight[id := r.leaseUntil];
      MoveStatus(id, t.typ, t.status, Running, before);
    }

    /** One claim over several queues. Without a task it tells when the next one is due, 0 for never. */
    method Claim(queues: seq<string>, token: Token, now: int) returns (got: Option<Id>, nextDue: int, ghost stale: bool)
      requires Indexed() && Linked()
      modifies this`recs, this`pending, this`delayed, this`inflight, this`byStatus, this`stats
      ensures Indexed() && Linked() && !stale
      ensures ClaimStep(cfg, old(Abs()), Elems(queues), token, now, Abs(), got)
      ensures got.None? ==> (NextDueOk(recs, Elems(queues), now, nextDue) <==> !EarliestAtZero(recs, Elems(queues)))
      ensures got.None? && EarliestAtZero(recs, Elems(queues)) ==> now < 0
    {
      hide QueueInv, RestInv, LinkInv, AllFuture, ListOf, ZsetOf, NextDueOk, EarliestAtZero, DueFold, Ready, InQueue;
      ghost var before := recs;
      nextDue := 0;
      MoveDue(queues, now);
      got, stale := TakeFirst(queues, token, now);
      if got.Some? {
        LinksKept(before, recs, children, parents, bk);
      } else {
        nextDue := NextDue(queues);
        Drained(recs, pending, delayed, queues, now, nextDue);
      }
    }

    /** Queue after queue, until one gives a task. */
    method TakeFirst(queues: seq<string>, token: Token, now: int) returns (got: Option<Id>, ghost stale: bool)
      requires Indexed() && forall q :: q in queues ==> AllFuture(ZsetOf(delayed, q), now)
      modifies this`recs, this`pending, this`delayed, this`inflight, this`byStatus, this`stats
      ensures Indexed() && !stale
      ensures got.Some? ==> Ready(old(recs), Elems(queues), now, got.value) && got.value in old(recs)
                            && recs == old(recs)[got.value := ClaimRec(cfg, old(recs)[got.value], token, now)]
      ensures got.None? ==> recs == old(recs) && (forall q :: q in queues ==> AllFuture(ZsetOf(delayed, q), now))
                            && forall i :: 0 <= i < |queues| ==> ListOf(pending, queues[i]) == []
    {
      hide QueueInv, RestInv, AllFuture, ListOf, ZsetOf, ClaimRec, SameElsewhere;
      got, stale := None, false;
      for j := 0 to |queues|
        invariant Indexed() && !stale && recs == old(recs) && got.None?
        invariant forall q :: q in queues ==> AllFuture(ZsetOf(delayed, q), now)
        invariant forall i :: 0 <= i < j ==> ListOf(pending, queues[i]) == []
      {
        ghost var p0, d0 := pending, delayed;
        got, stale := PopReady(queues[j], token, now);
        if got.Some? {
          return;
        }
        StillDrained(p0, d0, pending, delayed, queues, j, now);
      }
    }

    /** The least first score over the queues' zsets, 0 taken as "none yet". */
    method NextDue(queues: seq<string>) returns (n: int)
      ensures n == DueFold(delayed, queues)
    {
      n := 0;
      for j := 0 to |queues|
        invariant n == DueFold(delayed, queues[..j])
      {
        assert queues[..j + 1] == queues[..j] + [queues[j]];
        var z := ZsetOf(delayed, queues[j]);
        if z != map[] {
          var s := FirstScore(z);
          MinUnique(z, s);
          if n == 0 || s < n { n := s; }
        }
      }
      assert queues[..|queues|] == queues;
    }

    method FirstScore(z: map<Id, int>) returns (s: int)
      requires z != map[]
      ensures IsMin(z, s)
    {
      var x :| x in z;
      s := z[x];
      var todo := z.Keys - {x};
      while todo != {}
        invariant todo <= z.Keys && (exists y :: y in z && z[y] == s) && forall y :: y in z && y !in todo ==> s <= z[y]
        decreases todo
      {
        var y :| y in todo;
        if z[y] < s { s := z[y]; }
        todo := todo - {y};
      }
    }

    // ---- enqueue.go with enqueue.lua, replay.lua ----

    /** Names the Go side lets through to the script. */
    method CheckNames(t: Task) returns (bad: Option<string>)
      ensures bad.None? <==> CleanNames(t)
      ensures bad.Some? ==> bad.value == if CleanKey(t.businessKey) then t.id else t.businessKey
    {
      var ok := ValidateBusinessKey(t.businessKey);
      if !ok { return Some(t.businessKey); }
      if t.id != "" {
        ok := ValidateId(t.id);
        if !ok { return Some(t.id); }
      }
      bad := None;
    }

    /** The decision over parents that are already distinct; the repair script also notices a missing parent here. */
    method Decide(uniq: seq<Id>, policy: Policy) returns (d: SubmitDecision, missing: Option<Id>)
      requires NoDup(uniq)
      ensures missing.Some? ==> missing.value in uniq && missing.value !in recs
      ensures missing.None? ==> d.status == InitialStatus(recs, ParentSet(uniq), policy)
      ensures missing.None? && d.status.Canceled? ==> d.pendingParents == 0 && NamesDead(recs, uniq, d.lastError)
      ensures missing.None? && !d.status.Canceled? ==> d.pendingParents == |Waiting(recs, ParentSet(uniq))|
      ensures missing.None? && !d.status.Canceled? ==> d.status == if d.pendingParents > 0 then Blocked else Pending
    {
      hide AnyDead, NamesDead, ParentSet;
      var notFinal: nat := 0;
      missing := None;
      assert Waiting(recs, ParentSet(uniq[..0])) == {}
             && !AnyDead(recs, ParentSet(uniq[..0])) by { NoParents(recs, uniq[..0]); }
      for j := 0 to |uniq|
        invariant notFinal == |Waiting(recs, ParentSet(uniq[..j]))|
        invariant !policy.IgnoreParentFail? ==> !AnyDead(recs, ParentSet(uniq[..j]))
      {
        if uniq[j] !in recs {
          return SubmitDecision(Pending, 0, NoError), Some(uniq[j]);
        }
        WaitingStep(recs, uniq, j);
        var ps := recs[uniq[j]].task.status;
        if Dead(ps) {
          if !policy.IgnoreParentFail? {
            DeadDecides(recs, uniq, j, policy);
            return SubmitDecision(Canceled, 0, ParentFailureReason(uniq[j], ps)), None;
          }
        } else if !IsFinal(ps) {
          notFinal := notFinal + 1;
        }
      }
      assert uniq[..|uniq|] == uniq;
      d := SubmitDecision(if notFinal > 0 then Blocked else Pending, notFinal, NoError);
    }

    method Dedup(deps: seq<Id>) returns (uniq: seq<Id>)
      ensures uniq == Distinct(deps)
    {
      uniq := [];
      var seen: set<Id> := {};
      for i := 0 to |deps|
        invariant uniq == Distinct(deps[..i]) && forall x :: x in seen <==> x in deps[..i]
      {
        assert deps[..i + 1] == deps[..i] + [deps[i]];
        assert deps[..i + 1][..i] == deps[..i];
        if deps[i] !in seen {
          seen := seen + {deps[i]};
          uniq := uniq + [deps[i]];
        }
      }
      assert deps[..|deps|] == deps;
    }

    method RegisterKid(id: Id, uniq: seq<Id>)
      modifies this`children
      ensures KidAdded(old(children), children, ParentSet(uniq), id)
    {
      for j := 0 to |uniq|
        invariant KidAdded(old(children), children, ParentSet(uniq[..j]), id)
      {
        var p := uniq[j];
        ghost var before := children;
        children := children[p := Kids(children, p) + {id}];
        assert uniq[..j + 1] == uniq[..j] + [p];
        forall x
          ensures Kids(children, x) == Kids(old(children), x) + if x in ParentSet(uniq[..j + 1]) then {id} else {}
        {
          assert Kids(before, x) == Kids(old(children), x) + if x in ParentSet(uniq[..j]) then {id} else {};
        }
      }
      assert uniq[..|uniq|] == uniq;
    }

    /** A new hash, its key list and its parents' children sets. */
    method WriteHash(id: Id, r: Rec, uniq: seq<Id>)
      requires Linked() && id !in recs && id != "" && ValidName(id)
      requires NoDup(uniq) && ParentSet(uniq) == Parents(r) && Parents(r) <= recs.Keys
      modifies this`recs, this`parents, this`children, this`bk
      ensures Abs() == State(old(recs)[id := r], Appended(old(bk), r.task.businessKey, id), old(replayed)) && Linked()
    {
      hide LinkInv, KidAdded, Join, Parents, ParentSet;
      ghost var recs0, kids0, parents0, bk0 := recs, children, parents, bk;
      recs := recs[id := r];
      parents := parents[id := Join(uniq)];
      if r.task.businessKey != "" {
        var chain := if r.task.businessKey in bk then bk[r.task.businessKey] else [];
        bk := bk[r.task.businessKey := chain + [id]];
      }
      RegisterKid(id, uniq);
      LinkNew(recs0, kids0, children, parents0, bk0, id, r, uniq);
    }

    /** The queue, the status set and the counter of a hash just written. */
    method IndexHash(id: Id, r: Rec, now: int, ghost recs0: Recs)
      requires QueueInv(recs0, pending, delayed) && RestInv(recs0, inflight, byStatus, stats)
      requires id !in recs0 && recs == recs0[id := r] && !r.task.status.Running? && !r.task.status.Retrying?
      modifies this`pending, this`delayed, this`byStatus, this`stats
      ensures Indexed()
    {
      hide QueueInv, RestInv, QueuesBut, Scored, Pushed;
      NotQueuedDetached(recs0, pending, delayed, id);
      RestNew(recs0, inflight, byStatus, stats, id, r);
      if r.task.status.Pending? {
        ButFrame(recs0, pending, delayed, id, r);
        PlaceInQueue(id, r.task.queue, r.task.runAt, now);
      } else {
        LeaveQueue(recs0, pending, delayed, id, r);
      }
      byStatus := byStatus[r.task.status := Bucket(byStatus, r.task.status) + {id}];
      stats := Bumped(stats, Field(r.task.typ, r.task.status), 1);
    }

    method Create(id: Id, r: Rec, uniq: seq<Id>, now: int)
      requires Indexed() && Linked() && id !in recs && id != "" && ValidName(id)
      requires NoDup(uniq) && ParentSet(uniq) == Parents(r) && Parents(r) <= recs.Keys
      requires !r.task.status.Running? && !r.task.status.Retrying?
      modifies this`recs, this`parents, this`pending, this`delayed, this`byStatus, this`stats, this`children, this`bk
      ensures Abs() == State(old(recs)[id := r], Appended(old(bk), r.task.businessKey, id), old(replayed))
      ensures Indexed() && Linked()
    {
      hide QueueInv, RestInv, LinkInv;
      ghost var recs0 := recs;
      WriteHash(id, r, uniq);
      IndexHash(id, r, now, recs0);
    }

    /** The hash fields of a new submission, as enqueue.lua sets them. */
    method EnqueueHash(t: Task, id: Id, policy: Policy, d: SubmitDecision, now: int) returns (r: Rec)
      requires t.replayOf == "" && policy == if t.policy.Unset? then FailFast else t.policy
      ensures r == SubmitRec(t, id, d.status, d.pendingParents, d.lastError, now)
    {
      var runAt := if t.runAt == 0 then now else t.runAt;
      var lastError, finishedAt := t.lastError, t.finishedAt;
      if d.status.Canceled? {
        lastError := d.lastError;
        finishedAt := now;
      }
      r := Rec(Task(id, t.businessKey, "", t.typ, t.queue, Kept(t.payload), d.status, Kept(t.result), lastError,
                    t.attempts, t.maxRetry, t.leaseLost, t.throttled, runAt, t.dependsOn, policy, "",
                    now, t.startedAt, finishedAt), d.pendingParents, 0, false);
    }

    /** The hash fields of a new execution, as replay.lua sets them. */
    method ReplayHash(target: Task, id: Id, given: Option<Bytes>, now: int) returns (r: Rec)
      ensures r == ReplayRec(target, id, given, now)
    {
      var payload := given;
      if given.None? {
        payload := target.payload;
      } else {
        payload := Kept(given);
      }
      var typ, q, maxRetry, policy := target.typ, target.queue, target.maxRetry, target.policy;
      r := Rec(Task(id, target.businessKey, target.id, typ, q, payload, Pending, None, NoError,
                    0, maxRetry, 0, 0, now, [], policy, "", now, 0, 0), 0, 0, false);
    }

    /** gen is the id the client generates: never empty, never used before, without control characters. */
    method Enqueue(t: Task, gen: Id, now: int) returns (reply: Reply)
      requires Indexed() && Linked() && gen != "" && gen !in recs && ValidName(gen)
      modifies this`recs, this`parents, this`pending, this`delayed, this`byStatus, this`stats, this`children, this`bk
      ensures Indexed() && Linked()
      ensures t.replayOf != "" || CleanNames(t) ==> EnqueueStep(old(Abs()), t, gen, now, Abs(), reply)
      ensures !(t.replayOf != "" || CleanNames(t)) ==>
                Refused(old(Abs()), InvalidName(if CleanKey(t.businessKey) then t.id else t.businessKey), Abs(), reply)
    {
      hide QueueInv, RestInv, LinkInv, Submitted, InitialStatus, NamesDead, Waiting, Distinct, SubmitError,
           Submittable, CleanNames;
      if t.replayOf != "" {
        CarriesRefused(Abs(), t);
        return Err(CarriesReplayOf);
      }
      var bad := CheckNames(t);
      if bad.Some? { return Err(InvalidName(bad.value)); }
      var id := if t.id != "" then t.id else gen;
      var uniq := Dedup(t.dependsOn);
      var e := CheckSubmit(t, id, uniq);
      if e.Some? { return Err(e.value); }
      var policy := if t.policy.Unset? then FailFast else t.policy;
      DistinctElems(t.dependsOn);
      SubmittableParents(Abs(), t, id);
      var d, missing := Decide(uniq, policy);
      NamesDistinct(recs, t.dependsOn, d.lastError);
      CleanId(t, gen);
      DecidedSubmitted(recs, t, id, policy, d, now);
      NotClaimed(recs, ParentSet(uniq), policy);
      var r := EnqueueHash(t, id, policy, d, now);
      Create(id, r, uniq, now);
      reply := Ok;
    }

    /** The script's checks: key, id, then each distinct parent. */
    method CheckSubmit(t: Task, id: Id, uniq: seq<Id>) returns (e: Option<Error>)
      requires Linked() && t.replayOf == "" && uniq == Distinct(t.dependsOn)
      requires if t.id != "" then id == t.id else id !in recs
      ensures e.Some? ==> !Submittable(Abs(), t) && SubmitError(Abs(), t, e.value)
      ensures e.None? ==> Submittable(Abs(), t)
    {
      hide KidsExact, FieldsOk, ParentsPresent, Distinct, FirstUnknown;
      if t.businessKey != "" && t.businessKey in bk && bk[t.businessKey] != [] {
        var tail := bk[t.businessKey][|bk[t.businessKey]| - 1];
        assert tail in bk[t.businessKey];
        return Some(Error.KeyExists(t.businessKey, tail, recs[tail].task.status));
      }
      if id in recs { return Some(TaskExists(id)); }
      for j := 0 to |uniq|
        invariant forall i :: 0 <= i < j ==> uniq[i] in recs
      {
        if uniq[j] !in recs {
          UnknownNamed(recs, t.dependsOn, j);
          return Some(TaskNotFound(uniq[j]));
        }
      }
      DistinctMembers(t.dependsOn);
      e := None;
    }

    method Replay(req: ReplayRequest, gen: Id, now: int) returns (reply: Reply)
      requires Indexed() && Linked() && gen != "" && gen !in recs && ValidName(gen)
      modifies this`recs, this`parents, this`pending, this`delayed, this`byStatus, this`stats, this`children, this`bk,
               this`replayed
      ensures Indexed() && Linked()
      ensures CleanReplay(req) ==> ReplayStep(old(Abs()), req, gen, now, Abs(), reply)
      ensures !CleanReplay(req) ==> Refused(old(Abs()), InvalidName(req.businessKey), Abs(), reply)
    {
      hide QueueInv, RestInv, KidsExact, FieldsOk, ParentsPresent, CleanKey;
      if (req.executionId == "") == (req.businessKey == "") { return Err(BadReplayRequest); }
      if req.businessKey != "" {
        var ok := ValidateBusinessKey(req.businessKey);
        if !ok { return Err(InvalidName(req.businessKey)); }
      }
      assert CleanReplay(req) by { CleanEmpty(req); }
      var target: Id;
      if req.executionId != "" {
        if req.executionId !in recs { return Err(TaskNotFound(req.executionId)); }
        target := req.executionId;
      } else {
        if req.businessKey !in bk || bk[req.businessKey] == [] { return Err(KeyNotFound(req.businessKey)); }
        target := bk[req.businessKey][|bk[req.businessKey]| - 1];
        assert target in bk[req.businessKey];
      }
      if !IsFinal(recs[target].task.status) { return Err(ReplayNotFinal(target)); }
      if target in replayed { return Err(AlreadyReplayed(target)); }
      if recs[target].task.status.Completed? && !req.allowCompleted { return Err(CompletedNotAllowed(target)); }
      var r := ReplayHash(recs[target].task, gen, req.payload, now);
      assert Parents(r) == {} && ParentSet([]) == {};
      Create(gen, r, [], now);
      replayed := replayed + {target};
      reply := Ok;
    }

    // ---- reap.lua ----

    /** A lost lease: straight back on the list, since a claimed task was due. */
    method ReturnToList(id: Id, r: Rec)
      requires Indexed() && id in recs && recs[id].task.status.Running? && r.task.status.Pending?
               && r.task.typ == recs[id].task.typ
      modifies this`recs, this`pending, this`inflight, this`byStatus, this`stats
      ensures recs == old(recs)[id := r] && Indexed()
    {
      hide QueueInv, QueuesBut, InflightInv, StatusInv, StatsInv;
      ghost var before := recs;
      NotQueuedDetached(recs, pending, delayed, id);
      EnterList(recs, pending, delayed, id, r);
      InflightShift(recs, inflight, id, r);
      var q := r.task.queue;
      inflight := inflight - {id};
      recs := recs[id := r];
      pending := pending[q := ListOf(pending, q) + [id]];
      MoveStatus(id, r.task.typ, Running, Pending, before);
    }

    /** One expired lease. */
    method ReapOne(id: Id, now: int)
      requires Indexed() && Linked() && id in recs && Expired(recs[id], now)
      modifies this`recs, this`pending, this`delayed, this`inflight, this`byStatus, this`stats
      ensures Indexed() && Linked() && ReapedOne(cfg, old(recs), id, now, recs)
    {
      hide QueueInv, RestInv, LinkInv, Outcome, CanceledRec, ReapRec;
      ghost var before := recs;
      var r := recs[id];
      if r.cancelRequested {
        Rewrite(id, r.(cancelRequested := false));
        ForceCancel(id, CanceledByRequest, now);
        ReapedCanceled(cfg, before, id, now);
        Settle(id, now, before);
        return;
      }
      var capped;
      r, capped := LoseLease(r, now);
      if capped {
        EndRunning(id, r);
        Settle(id, now, before);
      } else {
        ReturnToList(id, r);
        LinksKept(before, recs, children, parents, bk);
      }
    }

    /** The hash fields after a lost lease: one more lost, failed at the cap, back to pending before it. */
    method LoseLease(r0: Rec, now: int) returns (r: Rec, capped: bool)
      requires !r0.cancelRequested
      ensures r == ReapRec(cfg, r0, now) && capped == IsFinal(r.task.status)
      ensures r.task.typ == r0.task.typ && r.task.dependsOn == r0.task.dependsOn && (!capped ==> r.task.status.Pending?)
    {
      var lost := r0.task.leaseLost + 1;
      r := r0.(task := r0.task.(leaseLost := lost));
      capped := lost >= cfg.leaseLostMax;
      if capped {
        r := r.(task := r.task.(status := Failed, lastError := LeaseExpiredTimes(lost), finishedAt := now));
      } else {
        r := r.(task := r.task.(status := Pending));
      }
      r := r.(task := r.task.(leaseToken := ""), leaseUntil := 0, cancelRequested := false);
    }

    /** First pass over the inflight entries scored before now. An entry that its hash does not confirm would only be
        removed (stale); that never happens. */
    method ReapLeases(now: int) returns (count: nat, ghost stale: bool)
      requires Indexed() && Linked()
      modifies this`recs, this`pending, this`delayed, this`inflight, this`byStatus, this`stats
      ensures Indexed() && Linked() && !stale
      ensures GraphInv(old(recs)) ==> ReapStep(cfg, old(Abs()), now, {}, Abs(), count)
      ensures Overcounted(old(recs)) ==> Overcounted(recs)
      ensures ReapedInTurn(cfg, old(recs), now, recs)
    {
      hide QueueInv, RestInv, LinkInv, GraphInv, Overcounted, ReapedSoFar, ReapRec, Outcome, ReapedOne, LookedAt,
           ReapedInTurn;
      ghost var recs0 := recs;
      LookedAtNone(cfg, recs, now);
      var expired := Members(set x | x in inflight && inflight[x] < now);
      count, stale := 0, false;
      InflightExpired(recs, inflight, byStatus, stats, expired, now);
      ReapedNone(cfg, recs0, now);
      assert Elems(expired[..0]) == {};
      for k := 0 to |expired|
        invariant Indexed() && Linked() && recs.Keys == recs0.Keys && !stale
        invariant forall j :: k <= j < |expired| ==> expired[j] in recs && Expired(recs[expired[j]], now)
        invariant GraphInv(recs0) ==> ReapedSoFar(cfg, recs0, Elems(expired[..k]), now, recs)
                                      && count == |ExpiredIn(recs0, Elems(expired[..k]), now)|
        invariant Overcounted(recs0) ==> Overcounted(recs)
        invariant LookedAt(cfg, recs0, Elems(expired[..k]), now, recs)
      {
        var id := expired[k];
        var leftover := id !in recs || !recs[id].task.status.Running? || recs[id].leaseUntil >= now;
        var drop: set<Id> := if leftover then {id} else {};
        stale := stale || leftover;
        assert inflight - drop == inflight;
        inflight := inflight - drop;
        if !leftover {
          ghost var before := recs;
          ReapOne(id, now);
          ElemsStep(expired, k);
          ReapOneKeeps(cfg, recs0, Elems(expired[..k]), now, before, id, recs, true);
          ExpiredKept(cfg, before, id, now, recs, expired, k);
          LookedAtMore(cfg, recs0, Elems(expired[..k]), now, before, id, recs);
          count := count + 1;
        }
      }
      assert expired[..|expired|] == expired;
      AllOnList(recs0, expired, now);
      LookedAtAll(cfg, recs0, Elems(expired), now, recs);
      OnlyExpired(cfg, recs0, Elems(expired), now);
    }

    /** A cancel that was lost. */
    method CancelBlocked(id: Id, reason: ErrText, now: int)
      requires Indexed() && Linked() && id in recs && recs[id].task.status.Blocked?
      modifies this`recs, this`pending, this`delayed, this`inflight, this`byStatus, this`stats
      ensures Indexed() && Linked() && recs.Keys == old(recs.Keys)
      ensures Overcounted(old(recs)) ==> Overcounted(recs) && Sound(recs, id)
      ensures Overcounted(old(recs)) ==> forall c :: Sound(old(recs), c) ==> Sound(recs, c)
      ensures Outcome(old(recs)[id := CanceledRec(old(recs[id]), reason, now)], {id}, now, recs)
    {
      hide QueueInv, RestInv, LinkInv, Overcounted, Outcome, Sound;
      ghost var before := recs;
      ForceCancel(id, reason, now);
      Settle(id, now, before);
      if Overcounted(before) {
        RepairCanceled(before, id, CanceledRec(before[id], reason, now), now, recs);
      }
    }

    /** One blocked task: the parents come from the parents field. */
    method RepairOne(id: Id, now: int)
      requires Indexed() && Linked() && id in recs
      modifies this`recs, this`pending, this`delayed, this`inflight, this`byStatus, this`stats
      ensures Indexed() && Linked() && recs.Keys == old(recs.Keys)
      ensures GraphInv(old(recs)) ==> recs == old(recs)
      ensures Overcounted(old(recs)) ==> Overcounted(recs) && Sound(recs, id)
      ensures Overcounted(old(recs)) ==> forall c :: Sound(old(recs), c) ==> Sound(recs, c)
      ensures RepairedOne(old(recs), id, now, recs)
    {
      hide QueueInv, RestInv, LinkInv, GraphInv, Overcounted, Outcome, NodeOk, InitialStatus, Waiting, NamesDead,
           RepairedOne;
      ghost var before := recs;
      var r := recs[id];
      if !r.task.status.Blocked? {
        RepairedNot(recs, id, now);
        return;
      }
      FieldRead(recs, children, parents, bk, id);
      var ps := Pieces(parents[id]);
      var d, missing := Decide(ps, r.task.policy);
      if missing.Some? {
        MissingField(recs, ps, id, missing.value);
        RepairedNot(recs, id, now);
        return;
      }
      RepairDecision(before, id, now, d);
      ghost var r' := r.(pendingParents := d.pendingParents);
      if d.status.Canceled? {
        NamedPlain(recs, ps, r.task.dependsOn, d.lastError);
        CancelBlocked(id, d.lastError, now);
        r' := CanceledRec(r, d.lastError, now);
      } else if d.pendingParents > 0 {
        Rewrite(id, r.(pendingParents := d.pendingParents));
        LinksKept(before, recs, children, parents, bk);
      } else {
        EnterQueueFromBlocked(id, r.(task := r.task.(status := Pending), pendingParents := 0), now);
        LinksKept(before, recs, children, parents, bk);
        r' := r.(task := r.task.(status := Pending), pendingParents := 0);
      }
      RepairActs(before, id, now, d, r', recs);
    }

    method RepairBlocked(now: int)
      requires Indexed() && Linked()
      modifies this`recs, this`pending, this`delayed, this`inflight, this`byStatus, this`stats
      ensures Indexed() && Linked()
      ensures GraphInv(old(recs)) ==> recs == old(recs)
      ensures Overcounted(old(recs)) ==> Repaired(recs)
      ensures RepairedInTurn(old(recs), now, recs)
    {
      hide QueueInv, LinkInv, GraphInv, Overcounted, NodeOk, InflightInv, StatsInv, RepairedOne, RepairedSoFar,
           RepairedInTurn;
      ghost var recs0 := recs;
      RepairedNone(recs, now);
      assert Elems<Id>([]) == {};
      var blocked := Members(Bucket(byStatus, Blocked));
      assert forall c :: c in blocked <==> c in recs && recs[c].task.status.Blocked?;
      assert forall c :: c in recs && c !in blocked ==> Sound(recs, c);
      hide RestInv, Sound;
      for k := 0 to |blocked|
        invariant Indexed() && Linked() && recs.Keys == recs0.Keys
        invariant GraphInv(recs0) ==> recs == recs0
        invariant Overcounted(recs0) ==> Overcounted(recs)
        invariant Overcounted(recs0) ==> forall c :: c in recs0 && c !in blocked[k..] ==> Sound(recs, c)
        invariant RepairedSoFar(recs0, Elems(blocked[..k]), now, recs)
      {
        assert blocked[k..] == [blocked[k]] + blocked[k + 1..];
        assert blocked[k] in blocked;
        ElemsStep(blocked, k);
        if blocked[k] in recs {
          ghost var before := recs;
          RepairOne(blocked[k], now);
          RepairedMore(recs0, Elems(blocked[..k]), now, before, blocked[k], recs);
        }
      }
      assert blocked[..|blocked|] == blocked;
      RepairedAll(recs0, Elems(blocked), now, recs);
    }

    method ReapExpired(now: int) returns (count: nat, ghost stale: bool)
      requires Indexed() && Linked()
      modifies this`recs, this`pending, this`delayed, this`inflight, this`byStatus, this`stats
      ensures Indexed() && Linked() && !stale
      ensures GraphInv(old(recs)) ==> ReapStep(cfg, old(Abs()), now, {}, Abs(), count)
      ensures Overcounted(old(recs)) ==> Repaired(recs)
      ensures ReapedThenRepaired(cfg, old(recs), now, recs)
    {
      hide QueueInv, RestInv, LinkInv, GraphInv, Overcounted, Repaired, ReapedInTurn, RepairedInTurn;
      ghost var s := Abs();
      count, stale := ReapLeases(now);
      if GraphInv(s.recs) {
        ReapEffects(cfg, s, now, {}, Abs(), count);
      }
      RepairBlocked(now);
    }
  }

  /** Clearing the mark before canceling is canceling and then clearing the mark. */
  lemma ReapedCanceled(c: Config, recs: Recs, id: Id, now: int)
    requires id in recs && recs[id].cancelRequested
    ensures var r := recs[id].(cancelRequested := false);
            recs[id := r][id := CanceledRec(r, CanceledByRequest, now)] == recs[id := ReapRec(c, recs[id], now)]
    ensures ReapRec(c, recs[id], now).task.status.Canceled?
            && ReapRec(c, recs[id], now).task.dependsOn == recs[id].task.dependsOn
  {}

  lemma AllOnList(recs: Recs, expired: seq<Id>, now: int)
    requires Elems(expired) == ExpiredIds(recs, {}, now)
    ensures AllLeases(recs, now, Elems(expired))
  {
    forall x | x in recs && recs[x].task.status == Running && recs[x].leaseUntil < now ensures x in Elems(expired) {
      assert x in ExpiredIds(recs, {}, now);
    }
  }

  lemma InflightExpired(recs: Recs, inflight: map<Id, int>, byStatus: map<Status, set<Id>>, stats: map<string, int>,
                        expired: seq<Id>, now: int)
    requires RestInv(recs, inflight, byStatus, stats)
             && forall x :: x in expired <==> x in inflight && inflight[x] < now
    ensures Elems(expired) == ExpiredIds(recs, {}, now)
    ensures forall j :: 0 <= j < |expired| ==> expired[j] in recs && Expired(recs[expired[j]], now)
  {
    hide StatusInv, StatsInv;
    forall j | 0 <= j < |expired| ensures expired[j] in recs && Expired(recs[expired[j]], now) {
      assert expired[j] in expired;
    }
    forall x ensures x in Elems(expired) <==> x in ExpiredIds(recs, {}, now) {
      assert x in expired <==> x in inflight && inflight[x] < now;
    }
  }

  /** Reaping one lease leaves every other lease as it was. */
  lemma ExpiredKept(c: Config, before: Recs, id: Id, now: int, after: Recs, expired: seq<Id>, k: nat)
    requires ReapedOne(c, before, id, now, after) && NoDup(expired) && k < |expired| && expired[k] == id
    requires forall j :: k <= j < |expired| ==> expired[j] in before && Expired(before[expired[j]], now)
    ensures forall j :: k + 1 <= j < |expired| ==> expired[j] in after && Expired(after[expired[j]], now)
  {
    hide ReapRec, Outcome;
    forall j | k + 1 <= j < |expired| ensures expired[j] in after && Expired(after[expired[j]], now) {
      var r := ReapRec(c, before[id], now);
      if IsFinal(r.task.status) {
        RunningKept(before[id := r], id, now, after, expired[j]);
      }
    }
  }

  /** Reaping exactly the expired leases is reaping all of them. */
  lemma OnlyExpired(c: Config, recs: Recs, seen: set<Id>, now: int)
    requires seen == ExpiredIds(recs, {}, now)
    ensures ExpiredIn(recs, seen, now) == ExpiredIds(recs, {}, now)
    ensures forall post :: ReapedSoFar(c, recs, seen, now, post) <==>
              Outcome(Reaped(c, recs, recs.Keys - {}, now), Ended(c, recs, recs.Keys - {}, now), now, post)
  {
    hide Outcome, ReapRec;
    assert Reaped(c, recs, seen, now) == Reaped(c, recs, recs.Keys - {}, now);
    assert Ended(c, recs, seen, now) == Ended(c, recs, recs.Keys - {}, now);
  }

  lemma FieldRead(recs: Recs, children: map<Id, set<Id>>, parents: map<Id, string>, bk: map<Key, seq<Id>>, id: Id)
    requires LinkInv(recs, children, parents, bk) && id in recs
    ensures id in parents && NoDup(Pieces(parents[id])) && ParentSet(Pieces(parents[id])) == Parents(recs[id])
            && ParentsPresent(recs)
  {
    hide Pieces;
    assert FieldOk(recs, parents, id);
  }

  lemma MissingField(recs: Recs, ps: seq<Id>, id: Id, p: Id)
    requires id in recs && ParentSet(ps) == Parents(recs[id]) && p in ps && p !in recs
    ensures !ParentsPresent(recs)
  {
    assert p in ParentSet(ps);
  }

  /** What the Go side accepts as business key and id. */
  predicate CleanNames(t: Task) {
    CleanKey(t.businessKey) && ValidName(t.id)
  }

  /** Replays the Go side lets through to the checks of the script: those it finds ill-formed keep their own answer. */
  predicate CleanReplay(req: ReplayRequest) {
    (req.executionId == "") == (req.businessKey == "") || CleanKey(req.businessKey)
  }

  lemma CleanEmpty(req: ReplayRequest)
    requires req.businessKey == "" || CleanKey(req.businessKey)
    ensures CleanReplay(req)
  {}

  lemma CarriesRefused(s: State, t: Task)
    requires t.replayOf != ""
    ensures !Submittable(s, t) && SubmitError(s, t, CarriesReplayOf)
  {}

  lemma CleanId(t: Task, gen: Id)
    requires CleanNames(t) && ValidName(gen) && gen != ""
    ensures var id := if t.id != "" then t.id else gen; id != "" && ValidName(id)
  {}

  lemma SubmittableParents(s: State, t: Task, id: Id)
    requires Submittable(s, t) && (if t.id != "" then id == t.id else id !in s.recs)
    ensures id !in s.recs && ParentSet(t.dependsOn) <= s.recs.Keys
    ensures ParentSet(Distinct(t.dependsOn)) == ParentSet(t.dependsOn)
            && forall p :: p in Distinct(t.dependsOn) ==> p in s.recs
  {
    DistinctElems(t.dependsOn);
    forall p | p in Distinct(t.dependsOn) ensures p in s.recs {
      assert p in ParentSet(Distinct(t.dependsOn));
    }
  }

  lemma NoParents(recs: Recs, none: seq<Id>)
    requires none == []
    ensures Waiting(recs, ParentSet(none)) == {} && !AnyDead(recs, ParentSet(none))
  {}

  lemma NotClaimed(recs: Recs, parents: set<Id>, policy: Policy)
    ensures var s := InitialStatus(recs, parents, policy); !s.Running? && !s.Retrying?
  {}

  /** A visit never changes a final child. */
  lemma FinalChild(p: Id, ps: Status, c: Rec, now: int)
    ensures IsFinal(c.task.status) ==> VisitChild(p, ps, c, now) == c
  {}

  lemma KidFresh(recs: Recs, children: map<Id, set<Id>>, p: Id, kids: seq<Id>, k: nat)
    requires KidsExact(recs, children) && NoDup(kids) && Elems(kids) == Kids(children, p) && k < |kids|
    ensures ChildOf(recs, p, kids[k]) && kids[k] !in Elems(kids[..k])
    ensures Elems(kids[..k + 1]) == Elems(kids[..k]) + {kids[k]}
  {
    assert kids[k] in Elems(kids);
    assert kids[..k + 1] == kids[..k] + [kids[k]];
  }

  lemma KidsAll(recs: Recs, children: map<Id, set<Id>>, p: Id, kids: seq<Id>)
    requires KidsExact(recs, children) && Elems(kids) == Kids(children, p)
    ensures forall c :: c in recs && p in Parents(recs[c]) ==> c in Elems(kids[..|kids|])
  {
    assert kids[..|kids|] == kids;
    forall c | c in recs && p in Parents(recs[c]) ensures c in Elems(kids) {
      assert ChildOf(recs, p, c);
    }
  }

  function ScriptTtl(c: Config, q: string): int {
    if q in c.ttl then c.ttl[q] else c.defaultTTL
  }

  predicate PositiveTtl(c: Config, q: string) {
    q in c.ttl ==> c.ttl[q] > 0
  }

  /** The heartbeat step with the time to live the script picks. */
  ghost predicate ScriptHeartbeat(c: Config, s: State, id: Id, token: Token, now: int, s': State, reply: Reply) {
    match LeaseError(s.recs, id, token)
    case Some(e) => Refused(s, e, s', reply)
    case None =>
      var r := s.recs[id];
      s' == s.(recs := s.recs[id := r.(leaseUntil := now + ScriptTtl(c, r.task.queue))])
      && reply == if r.cancelRequested then Err(TaskCanceled(id)) else Ok
  }

  /** The heartbeat script does what the reference broker does exactly when the lease check fails or the queue's
      override, if any, is positive: the script does not fall back to the default for an override of zero or less. */
  lemma HeartbeatAgrees(c: Config, s: State, id: Id, token: Token, now: int, s': State, reply: Reply)
    requires c.defaultTTL > 0 && ScriptHeartbeat(c, s, id, token, now, s', reply)
    ensures HeartbeatStep(c, s, id, token, now, s', reply) <==>
            LeaseError(s.recs, id, token).Some? || PositiveTtl(c, s.recs[id].task.queue)
  {
    if LeaseError(s.recs, id, token).None? {
      var r := s.recs[id];
      assert s'.recs[id].leaseUntil == now + ScriptTtl(c, r.task.queue);
      assert HeartbeatStep(c, s, id, token, now, s', reply) ==> s'.recs[id].leaseUntil == now + TtlFor(c, r.task.queue);
    }
  }

  /** A concrete disagreement: an override of zero. */
  lemma HeartbeatTtlDiffers()
    ensures var c := Normalized(Config(map["q" := 0], 60000, 3, 100)); ScriptTtl(c, "q") == 0 && TtlFor(c, "q") == 60000
  {}

  lemma FailKeeps(c: Config, r: Rec, msg: string, kind: FailKind, at: int, now: int)
    ensures var r' := FailRec(c, r, msg, kind, at, now);
            r'.task.typ == r.task.typ && r'.task.dependsOn == r.task.dependsOn
            && (Queued(r') <==> !IsFinal(r'.task.status))
  {}

  lemma DistinctMembers(deps: seq<Id>)
    ensures forall p :: p in deps <==> p in Distinct(deps)
  {
    DistinctElems(deps);
    assert forall p :: p in deps <==> p in ParentSet(deps);
    assert forall p :: p in Distinct(deps) <==> p in ParentSet(Distinct(deps));
  }

  /** The distinct parent a loop stops at is the first unknown one in order of mention. */
  lemma UnknownNamed(recs: Recs, deps: seq<Id>, j: nat)
    requires j < |Distinct(deps)| && Distinct(deps)[j] !in recs && forall i :: 0 <= i < j ==> Distinct(deps)[i] in recs
    ensures FirstUnknown(recs, deps) == Some(Distinct(deps)[j]) && Distinct(deps)[j] in deps
  {
    hide Distinct;
    DistinctFirst(recs, deps);
    DistinctMembers(deps);
    FirstOf(recs, Distinct(deps)[..j]);
    FirstFound(recs, Distinct(deps), j);
  }

  lemma RenewFrame(recs: Recs, inflight: map<Id, int>, byStatus: map<Status, set<Id>>, stats: map<string, int>, id: Id,
                   r: Rec)
    requires RestInv(recs, inflight, byStatus, stats) && id in recs && recs[id].task.status.Running?
    requires r == recs[id].(leaseUntil := r.leaseUntil)
    ensures RestInv(recs[id := r], inflight[id := r.leaseUntil], byStatus, stats)
  {
    var recs' := recs[id := r];
    forall typ, s ensures Group(recs', typ, s) == Group(recs, typ, s) {}
    forall s, x ensures x in Bucket(byStatus, s) <==> x in recs' && recs'[x].task.status == s {
      assert x in Bucket(byStatus, s) <==> x in recs && recs[x].task.status == s;
    }
  }

  // ---- claiming ----

  ghost predicate NotDueYet(recs: Recs, ids: seq<Id>, now: int) {
    forall x :: x in ids ==> x in recs && recs[x].task.runAt > now
  }

  /** id is on the list, due, and nothing before it is due. */
  ghost predicate IsFirstDue(recs: Recs, list: seq<Id>, now: int, id: Id) {
    id in recs && recs[id].task.runAt <= now
    && exists k :: 0 <= k < |list| && list[k] == id && NotDueYet(recs, list[..k], now)
  }

  lemma NoneBefore(recs: Recs, list: seq<Id>, now: int)
    ensures list[0..] == list && NotDueYet(recs, list[..0], now)
  {}

  /** The next entry of the list is due, or comes before the first that is. */
  lemma OneMoreBefore(recs: Recs, list: seq<Id>, k: nat, now: int)
    requires k < |list| && NotDueYet(recs, list[..k], now) && list[k] in recs
    ensures list[k..][1..] == list[k + 1..] && list[k..][0] == list[k]
    ensures if recs[list[k]].task.runAt > now then NotDueYet(recs, list[..k + 1], now)
            else IsFirstDue(recs, list, now, list[k])
  {
    assert list[..k + 1] == list[..k] + [list[k]];
  }

  lemma SameAtFirst(p: map<string, seq<Id>>, d: map<string, map<Id, int>>, q: string)
    ensures SameElsewhere(p, d, p, d, q)
  {}

  lemma SameAfter(p0: map<string, seq<Id>>, d0: map<string, map<Id, int>>, p: map<string, seq<Id>>,
                  d: map<string, map<Id, int>>, q: string, l: seq<Id>, z: map<Id, int>)
    requires SameElsewhere(p0, d0, p, d, q)
    ensures SameElsewhere(p0, d0, p[q := l], d, q) && SameElsewhere(p0, d0, p, d[q := z], q)
  {}

  ghost predicate AllFuture(z: map<Id, int>, now: int) {
    forall x :: x in z ==> z[x] > now
  }

  ghost predicate SameElsewhere(p0: map<string, seq<Id>>, d0: map<string, map<Id, int>>, p: map<string, seq<Id>>,
                                d: map<string, map<Id, int>>, q: string)
  {
    forall q' :: q' != q ==> ListOf(p, q') == ListOf(p0, q') && ZsetOf(d, q') == ZsetOf(d0, q')
  }

  lemma StillDrained(p0: map<string, seq<Id>>, d0: map<string, map<Id, int>>, p: map<string, seq<Id>>,
                     d: map<string, map<Id, int>>, queues: seq<string>, j: nat, now: int)
    requires j < |queues| && SameElsewhere(p0, d0, p, d, queues[j])
    requires ListOf(p, queues[j]) == [] && AllFuture(ZsetOf(d, queues[j]), now)
    requires forall q :: q in queues ==> AllFuture(ZsetOf(d0, q), now)
    requires forall i :: 0 <= i < j ==> ListOf(p0, queues[i]) == []
    ensures forall q :: q in queues ==> AllFuture(ZsetOf(d, q), now)
    ensures forall i :: 0 <= i < j + 1 ==> ListOf(p, queues[i]) == []
  {
    hide ListOf, ZsetOf, AllFuture;
    forall q | q in queues ensures AllFuture(ZsetOf(d, q), now) {
      if q != queues[j] {
        assert ZsetOf(d, q) == ZsetOf(d0, q);
      }
    }
    forall i | 0 <= i < j ensures ListOf(p, queues[i]) == [] {
      if queues[i] != queues[j] {
        assert ListOf(p, queues[i]) == ListOf(p0, queues[i]);
      }
    }
  }

  ghost predicate IsMin(z: map<Id, int>, s: int) {
    (exists x :: x in z && z[x] == s) && forall x :: x in z ==> s <= z[x]
  }

  ghost function MinOf(z: map<Id, int>): int {
    if exists s :: IsMin(z, s) then var s :| IsMin(z, s); s else 0
  }

  lemma MinUnique(z: map<Id, int>, s: int)
    requires IsMin(z, s)
    ensures MinOf(z) == s
  {}

  /** The script's running minimum over the queues. */
  ghost function DueFold(delayed: map<string, map<Id, int>>, queues: seq<string>): int {
    if queues == [] then 0
    else
      var n := DueFold(delayed, queues[..|queues| - 1]);
      var z := ZsetOf(delayed, queues[|queues| - 1]);
      if z == map[] then n else if n == 0 || MinOf(z) < n then MinOf(z) else n
  }

  lemma {:induction false} HasMin(z: map<Id, int>)
    requires z != map[]
    ensures IsMin(z, MinOf(z))
  {
    var x :| x in z;
    var z' := z - {x};
    if z' == map[] {
      assert forall y :: y in z ==> y == x by {
        forall y | y in z ensures y == x { assert y !in z'; }
      }
      assert IsMin(z, z[x]);
    } else {
      HasMin(z');
      var m := MinOf(z');
      var s := if z[x] < m then z[x] else m;
      forall y | y in z ensures s <= z[y] {
        if y != x { assert y in z'; }
      }
      assert exists y :: y in z && z[y] == s;
      assert IsMin(z, s);
    }
  }

  ghost predicate Due(delayed: map<string, map<Id, int>>, queues: seq<string>, x: Id, q: string) {
    q in queues && x in ZsetOf(delayed, q)
  }

  /** The earliest entry of those queues is scored 0, which the script cannot tell from "none yet". */
  ghost predicate ZeroFirst(delayed: map<string, map<Id, int>>, queues: seq<string>) {
    (exists x, q :: Due(delayed, queues, x, q) && ZsetOf(delayed, q)[x] == 0)
    && forall x, q :: Due(delayed, queues, x, q) ==> ZsetOf(delayed, q)[x] >= 0
  }

  ghost predicate IsScore(delayed: map<string, map<Id, int>>, queues: seq<string>, n: int) {
    exists x, q :: Due(delayed, queues, x, q) && ZsetOf(delayed, q)[x] == n
  }

  ghost predicate Lowest(delayed: map<string, map<Id, int>>, queues: seq<string>, n: int) {
    (n == 0 ==> forall x, q :: !Due(delayed, queues, x, q))
    && forall x, q :: Due(delayed, queues, x, q) ==> n <= ZsetOf(delayed, q)[x]
  }

  /** The running minimum is a score or 0, and the least one unless that is 0. */
  lemma {:induction false} DueFoldMin(delayed: map<string, map<Id, int>>, queues: seq<string>)
    ensures var n := DueFold(delayed, queues);
            (n != 0 ==> IsScore(delayed, queues, n)) && (ZeroFirst(delayed, queues) || Lowest(delayed, queues, n))
  {
    hide IsScore, ZeroFirst, Lowest, ZsetOf;
    if queues == [] {
      assert Lowest(delayed, [], 0) by { NoneDue(delayed); }
    } else {
      var qs, q0 := queues[..|queues| - 1], queues[|queues| - 1];
      assert queues == qs + [q0];
      DueFoldMin(delayed, qs);
      var n0, n := DueFold(delayed, qs), DueFold(delayed, queues);
      if ZsetOf(delayed, q0) != map[] {
        HasMin(ZsetOf(delayed, q0));
      }
      ScoreStep(delayed, qs, q0, n0, n);
      LowestStep(delayed, qs, q0, n0, n);
    }
  }

  lemma NoneDue(delayed: map<string, map<Id, int>>)
    ensures Lowest(delayed, [], 0)
  {}

  lemma ScoreStep(delayed: map<string, map<Id, int>>, qs: seq<string>, q0: string, n0: int, n: int)
    requires n0 != 0 ==> IsScore(delayed, qs, n0)
    requires n == n0 || IsMin(ZsetOf(delayed, q0), n)
    ensures n != 0 ==> IsScore(delayed, qs + [q0], n)
  {
    hide ZsetOf;
    if n == n0 && n0 != 0 {
      var x, q :| Due(delayed, qs, x, q) && ZsetOf(delayed, q)[x] == n0;
      assert Due(delayed, qs + [q0], x, q);
    } else if n != 0 {
      var m :| m in ZsetOf(delayed, q0) && ZsetOf(delayed, q0)[m] == n;
      assert Due(delayed, qs + [q0], m, q0);
    }
  }

  lemma LowestStep(delayed: map<string, map<Id, int>>, qs: seq<string>, q0: string, n0: int, n: int)
    requires n0 != 0 ==> IsScore(delayed, qs, n0)
    requires ZeroFirst(delayed, qs) || Lowest(delayed, qs, n0)
    requires var z := ZsetOf(delayed, q0);
             if z == map[] then n == n0
             else exists m :: IsMin(z, m) && n == if n0 == 0 || m < n0 then m else n0
    ensures ZeroFirst(delayed, qs + [q0]) || Lowest(delayed, qs + [q0], n)
  {
    hide ZsetOf;
    var queues, z := qs + [q0], ZsetOf(delayed, q0);
    assert forall x, q :: Due(delayed, queues, x, q) <==> Due(delayed, qs, x, q) || (q == q0 && x in z);
    if ZeroFirst(delayed, qs) {
      var x, q :| Due(delayed, qs, x, q) && ZsetOf(delayed, q)[x] == 0;
      assert Due(delayed, queues, x, q);
    }
    if z != map[] {
      var m :| IsMin(z, m) && n == if n0 == 0 || m < n0 then m else n0;
      var y :| y in z && z[y] == m;
      assert Due(delayed, queues, y, q0);
    }
  }

  /** 0 means nothing is queued there; otherwise n is the earliest run_at, and it lies in the future. */
  ghost predicate NextDueOk(recs: Recs, qs: set<string>, now: int, n: int) {
    (n == 0 ==> forall x :: x in recs && Queued(recs[x]) ==> recs[x].task.queue !in qs)
    && (n != 0 ==> n > now && exists x :: QueuedIn(recs, qs, x) && recs[x].task.runAt == n)
    && (n != 0 ==> forall x :: QueuedIn(recs, qs, x) ==> n <= recs[x].task.runAt)
  }

  ghost predicate QueuedIn(recs: Recs, qs: set<string>, x: Id) {
    x in recs && Queued(recs[x]) && recs[x].task.queue in qs
  }

  /** Some task queued there runs at 0 and none before. */
  ghost predicate EarliestAtZero(recs: Recs, qs: set<string>) {
    (exists x :: QueuedIn(recs, qs, x) && recs[x].task.runAt == 0)
    && forall x :: QueuedIn(recs, qs, x) ==> recs[x].task.runAt >= 0
  }

  /** With the lists empty the zsets hold every queued task of those queues, at its run_at. */
  lemma DrainedDue(recs: Recs, pending: map<string, seq<Id>>, delayed: map<string, map<Id, int>>, queues: seq<string>,
                   x: Id)
    requires QueueInv(recs, pending, delayed) && forall q :: q in queues ==> ListOf(pending, q) == []
    ensures QueuedIn(recs, Elems(queues), x) ==>
              var q := recs[x].task.queue; Due(delayed, queues, x, q) && ZsetOf(delayed, q)[x] == recs[x].task.runAt
    ensures forall q :: Due(delayed, queues, x, q) ==>
              QueuedIn(recs, Elems(queues), x) && recs[x].task.queue == q && ZsetOf(delayed, q)[x] == recs[x].task.runAt
  {
    if QueuedIn(recs, Elems(queues), x) {
      assert Placed(recs, pending, delayed, x);
      var q := recs[x].task.queue;
      assert QueueOk(recs, ListOf(pending, q), ZsetOf(delayed, q), q);
    }
    forall q | Due(delayed, queues, x, q)
      ensures QueuedIn(recs, Elems(queues), x) && recs[x].task.queue == q && ZsetOf(delayed, q)[x] == recs[x].task.runAt
    {
      assert QueueOk(recs, ListOf(pending, q), ZsetOf(delayed, q), q);
      assert InQueue(recs, x, q);
    }
  }

  lemma Drained(recs: Recs, pending: map<string, seq<Id>>, delayed: map<string, map<Id, int>>, queues: seq<string>,
                now: int, n: int)
    requires QueueInv(recs, pending, delayed) && n == DueFold(delayed, queues)
    requires forall q :: q in queues ==> AllFuture(ZsetOf(delayed, q), now)
    requires forall i :: 0 <= i < |queues| ==> ListOf(pending, queues[i]) == []
    ensures forall id :: !Ready(recs, Elems(queues), now, id)
    ensures NextDueOk(recs, Elems(queues), now, n) <==> !EarliestAtZero(recs, Elems(queues))
    ensures EarliestAtZero(recs, Elems(queues)) ==> now < 0
  {
    hide QueueInv, ListOf, ZsetOf, DueFold;
    var qs := Elems(queues);
    forall x
      ensures !Ready(recs, qs, now, x)
      ensures QueuedIn(recs, qs, x) ==> recs[x].task.runAt > now && Due(delayed, queues, x, recs[x].task.queue)
                                        && ZsetOf(delayed, recs[x].task.queue)[x] == recs[x].task.runAt
      ensures forall q :: Due(delayed, queues, x, q) ==>
                QueuedIn(recs, qs, x) && recs[x].task.queue == q && ZsetOf(delayed, q)[x] == recs[x].task.runAt
    {
      DrainedDue(recs, pending, delayed, queues, x);
    }
    DueFoldMin(delayed, queues);
    if n != 0 {
      var x, q :| Due(delayed, queues, x, q) && ZsetOf(delayed, q)[x] == n;
      assert QueuedIn(recs, qs, x) && recs[x].task.runAt == n;
    }
    if ZeroFirst(delayed, queues) {
      var x, q :| Due(delayed, queues, x, q) && ZsetOf(delayed, q)[x] == 0;
      assert QueuedIn(recs, qs, x) && recs[x].task.runAt == 0;
    } else if n == 0 {
      forall x | x in recs && Queued(recs[x]) ensures recs[x].task.queue !in qs {
        assert !QueuedIn(recs, qs, x);
      }
    }
  }
}
