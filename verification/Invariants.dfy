/** What holds in every reachable state, and how any single record can change in one step. */
module Invariants {
  import opened Model
  import opened Cascade
  import opened Spec
  import opened Graph

  /** A broker call with the values drawn for it: clock reading, generated id or token, chosen task. */
  datatype Op =
    | OpEnqueue(t: Task, gen: Id, now: int)
    | OpClaim(queues: set<string>, token: Token, now: int, got: Option<Id>)
    | OpAck(id: Id, token: Token, result: Option<Bytes>, now: int)
    | OpFail(id: Id, token: Token, msg: string, kind: FailKind, at: int, now: int)
    | OpCancel(id: Id, now: int)
    | OpFinishCanceled(id: Id, token: Token, now: int)
    | OpRequeue(id: Id, token: Token)
    | OpHeartbeat(id: Id, token: Token, now: int)
    | OpReplay(req: ReplayRequest, gen: Id, now: int)
    | OpReap(now: int, skip: set<Id>, unseen: set<Id>)

  ghost predicate Step(c: Config, s: State, op: Op, s': State, reply: Reply) {
    match op
    case OpEnqueue(t, gen, now) => gen != "" && gen !in s.recs && EnqueueStep(s, t, gen, now, s', reply)
    case OpClaim(queues, token, now, got) => token != "" && reply == Ok && ClaimStep(c, s, queues, token, now, s', got)
    case OpAck(id, token, result, now) => AckStep(s, id, token, result, now, s', reply)
    case OpFail(id, token, msg, kind, at, now) => FailStep(c, s, id, token, msg, kind, at, now, s', reply)
    case OpCancel(id, now) => CancelStep(s, id, now, s', reply)
    case OpFinishCanceled(id, token, now) => FinishCanceledStep(s, id, token, now, s', reply)
    case OpRequeue(id, token) => RequeueStep(s, id, token, s', reply)
    case OpHeartbeat(id, token, now) => HeartbeatStep(c, s, id, token, now, s', reply)
    case OpReplay(req, gen, now) => gen != "" && gen !in s.recs && ReplayStep(s, req, gen, now, s', reply)
    case OpReap(now, skip, unseen) => reply == Ok && ReapCall(c, s, now, skip, unseen, s')
  }

  predicate Holds(r: Rec, token: Token) {
    r.task.status.Running? && token != "" && r.task.leaseToken == token
  }

  /** The effect an operation has on the task it is about. */
  predicate Own(c: Config, op: Op, id: Id, r: Rec, r': Rec) {
    match op
    case OpClaim(_, token, now, got) => got == Some(id) && Queued(r) && token != "" && r' == ClaimRec(c, r, token, now)
    case OpAck(x, token, result, now) => x == id && Holds(r, token) && r' == AckRec(r, result, now)
    case OpFail(x, token, msg, kind, at, now) =>
      x == id && Holds(r, token) && r' == FailRec(c, r, msg, kind, at, now)
    case OpCancel(x, now) =>
      x == id && !IsFinal(r.task.status)
      && r' == if r.task.status.Running? then r.(cancelRequested := true) else CanceledRec(r, CanceledByRequest, now)
    case OpFinishCanceled(x, token, now) =>
      x == id && Holds(r, token) && r' == CanceledRec(r, CanceledByRequest, now).(cancelRequested := false)
    case OpRequeue(x, token) => x == id && Holds(r, token) && r' == RequeueRec(r)
    case OpHeartbeat(x, token, now) => x == id && Holds(r, token)
                                       && r' == r.(leaseUntil := now + TtlFor(c, r.task.queue))
    case OpReap(now, skip, unseen) =>
      id !in skip && Expired(r, now) && r' == ReapRec(c, SeenAs(r, id in unseen), now)
    case _ => false
  }

  /** What a cascade can do to a task it did not start from: count down, wake or cancel a blocked one. */
  predicate CascadeMove(r: Rec, r': Rec) {
    r.task.status.Blocked?
    && (r' == r.(pendingParents := r'.pendingParents)
        || r' == r.(pendingParents := 0, task := r.task.(status := Pending))
        || r' == CanceledRec(r, r'.task.lastError, r'.task.finishedAt))
  }

  predicate Evolves(c: Config, op: Op, id: Id, r: Rec, r': Rec) {
    r' == r || Own(c, op, id, r, r') || CascadeMove(r, r')
  }

  /** In a graph-consistent state a cascade touches only blocked tasks. */
  lemma SettledMoves(pre0: Recs, pre: Recs, roots: set<Id>, gone: set<Id>, now: int, post: Recs, x: Id)
    requires GraphInv(pre0) && Ending(pre0, pre, roots) && Settled(pre, roots, gone, now, post) && x in pre0
    ensures x in roots ==> post[x] == pre[x]
    ensures post[x] == pre[x] || (pre[x] == pre0[x] && CascadeMove(pre0[x], post[x]))
  {
    HeardBlocked(pre0, pre, roots, gone, now, post, x);
    MoveOne(pre0, pre, roots, gone, now, post, x);
  }

  lemma MoveOne(pre0: Recs, pre: Recs, roots: set<Id>, gone: set<Id>, now: int, post: Recs, x: Id)
    requires Ending(pre0, pre, roots) && Settled(pre, roots, gone, now, post) && x in pre0
    requires Heard(pre, roots, gone, x) == {} || StatusOf(pre0, x).Blocked? || StatusOf(pre0, x).Canceled?
    ensures x in roots ==> post[x] == pre[x]
    ensures post[x] == pre[x] || (pre[x] == pre0[x] && CascadeMove(pre0[x], post[x]))
  {
    hide Told, Parents, Rooted, CascadeMove;
    var heard := Heard(pre, roots, gone, x);
    var dead := DeadRoots(pre, roots);
    SettledOne(pre, roots, gone, now, post, x);
    ToldStatus(pre, roots, dead, x in gone, heard, now, pre[x], post[x]);
    if heard == {} {
      ToldNothing(pre, roots, dead, x in gone, now, pre[x], post[x]);
    } else if !IsFinal(StatusOf(pre, x)) {
      ToldBlocked(pre, roots, dead, x in gone, heard, now, pre[x], post[x]);
    }
  }

  lemma ToldBlocked(pre: Recs, roots: set<Id>, dead: bool, gone: bool, told: set<Id>, now: int, r: Rec, r': Rec)
    requires Told(pre, roots, dead, gone, told, now, r, r') && r.task.status.Blocked?
    ensures r' == r || CascadeMove(r, r')
  {
    hide NamesOne;
  }

  // ---- the graph part ----

  /** The final record of one task is a legal ending. */
  ghost predicate LegalEnd(r0: Rec, r: Rec) {
    !IsFinal(r0.task.status) && IsFinal(r.task.status) && SameShape(r0, r)
    && (r0.task.status.Blocked? ==> r.task.status.Canceled?)
  }

  lemma EndOne(recs: Recs, id: Id, r: Rec)
    requires id in recs && LegalEnd(recs[id], r)
    ensures Ending(recs, recs[id := r], {id})
  {}

  lemma FinalEffects(s: State, id: Id, r: Rec, now: int, s': State, reply: Reply)
    requires GraphInv(s.recs) && id in s.recs && LegalEnd(s.recs[id], r) && FinalStep(s, id, r, now, s', reply)
    ensures GraphInv(s'.recs) && s'.recs.Keys == s.recs.Keys && s'.recs[id] == r
    ensures forall x :: x in s.recs && x != id ==> s'.recs[x] == s.recs[x] || CascadeMove(s.recs[x], s'.recs[x])
  {
    hide GraphInv, Ending, CascadeMove, LegalEnd, Doomed;
    var pre := s.recs[id := r];
    var gone := Doomed(pre, {id});
    EndOne(s.recs, id, r);
    GraphKept(s.recs, pre, {id}, gone, now, s'.recs);
    forall x | x in s.recs
      ensures (x == id ==> s'.recs[x] == pre[x]) && (s'.recs[x] == pre[x] || CascadeMove(s.recs[x], s'.recs[x]))
    {
      SettledMoves(s.recs, pre, {id}, gone, now, s'.recs, x);
    }
  }

  lemma EndReaped(c: Config, recs: Recs, which: set<Id>, now: int)
    ensures Ending(recs, Reaped(c, recs, which, now), Ended(c, recs, which, now))
    ensures DeadRoots(Reaped(c, recs, which, now), Ended(c, recs, which, now))
  {
    hide ReapRec;
    var pre, roots := Reaped(c, recs, which, now), Ended(c, recs, which, now);
    forall x | x in recs
      ensures SameShape(recs[x], pre[x]) && (x !in roots ==> SameStage(recs[x], pre[x]))
      ensures x in roots ==> Dead(StatusOf(pre, x)) && StatusOf(recs, x).Running?
    {
      ReapShape(c, recs[x], now);
    }
  }

  lemma ReapShape(c: Config, r: Rec, now: int)
    ensures SameShape(r, ReapRec(c, r, now))
    ensures Dead(ReapRec(c, r, now).task.status) || ReapRec(c, r, now).task.status.Pending?
  {}

  lemma ReapEffects(c: Config, s: State, now: int, skip: set<Id>, s': State, count: nat)
    requires GraphInv(s.recs) && ReapStep(c, s, now, skip, s', count)
    ensures GraphInv(s'.recs) && s'.recs.Keys == s.recs.Keys
    ensures forall x :: x in s.recs ==>
              if x !in skip && Expired(s.recs[x], now) then s'.recs[x] == ReapRec(c, s.recs[x], now)
              else s'.recs[x] == s.recs[x] || CascadeMove(s.recs[x], s'.recs[x])
  {
    hide GraphInv, Ending, ReapRec, Doomed, Ended;
    var which := s.recs.Keys - skip;
    var pre, roots := Reaped(c, s.recs, which, now), Ended(c, s.recs, which, now);
    var gone := Doomed(pre, roots);
    EndReaped(c, s.recs, which, now);
    GraphKept(s.recs, pre, roots, gone, now, s'.recs);
    forall x | x in s.recs
      ensures if x !in skip && Expired(s.recs[x], now) then s'.recs[x] == ReapRec(c, s.recs[x], now)
              else s'.recs[x] == s.recs[x] || CascadeMove(s.recs[x], s'.recs[x])
    {
      SettledMoves(s.recs, pre, roots, gone, now, s'.recs, x);
    }
  }

  /** Overlooking marks rewires nothing. */
  lemma OverlookedGraph(recs: Recs, unseen: set<Id>, now: int)
    requires GraphInv(recs)
    ensures GraphInv(Overlooked(recs, unseen, now))
  {
    hide GraphInv, Settled, NodeOk;
    var recs' := Overlooked(recs, unseen, now);
    SettledIdle(recs', 0);
    GraphKept(recs, recs', {}, {}, 0, recs');
  }

  /** The same with marks overlooked: a lease taken is reaped as the reaper saw it. */
  lemma ReapCallEffects(c: Config, s: State, now: int, skip: set<Id>, unseen: set<Id>, s': State)
    requires GraphInv(s.recs) && ReapCall(c, s, now, skip, unseen, s')
    ensures GraphInv(s'.recs) && s'.recs.Keys == s.recs.Keys
    ensures forall x :: x in s.recs ==>
              if x !in skip && Expired(s.recs[x], now)
              then s'.recs[x] == ReapRec(c, SeenAs(s.recs[x], x in unseen), now)
              else s'.recs[x] == s.recs[x] || CascadeMove(s.recs[x], s'.recs[x])
  {
    hide GraphInv, ReapStep, ReapRec, CascadeMove;
    var s0 := s.(recs := Overlooked(s.recs, unseen, now));
    OverlookedGraph(s.recs, unseen, now);
    ReapEffects(c, s0, now, skip, s', |ExpiredIds(s0.recs, skip, now)|);
    forall x | x in s.recs
      ensures Expired(s0.recs[x], now) == Expired(s.recs[x], now)
              && (!Expired(s.recs[x], now) || x in skip ==> s0.recs[x] == s.recs[x])
    {}
  }

  lemma PlainEffects(s: State, id: Id, r: Rec, s': State, reply: Reply)
    requires GraphInv(s.recs) && id in s.recs && SameShape(s.recs[id], r) && SameStage(s.recs[id], r)
    requires PlainStep(s, id, r, s', reply)
    ensures GraphInv(s'.recs)
  {
    GraphPlain(s.recs, id, r);
  }

  lemma EnqueueEffects(s: State, t: Task, gen: Id, now: int, s': State, reply: Reply)
    requires GraphInv(s.recs) && gen !in s.recs && EnqueueStep(s, t, gen, now, s', reply)
    ensures GraphInv(s'.recs)
    ensures forall x :: x in s.recs ==> x in s'.recs && s'.recs[x] == s.recs[x]
  {
    hide InitialStatus;
    if Submittable(s, t) {
      var id := if t.id != "" then t.id else gen;
      var r := s'.recs[id];
      assert Parents(r) == ParentSet(t.dependsOn);
      InitialPolicy(s.recs, Parents(r), t.policy);
      GraphAdded(s.recs, id, r);
    }
  }

  lemma InitialPolicy(recs: Recs, ps: set<Id>, policy: Policy)
    ensures policy.Unset? ==> InitialStatus(recs, ps, FailFast) == InitialStatus(recs, ps, policy)
    ensures InitialStatus(recs, ps, policy).Blocked? || InitialStatus(recs, ps, policy).Pending?
            || InitialStatus(recs, ps, policy).Canceled?
  {}

  lemma ReplayEffects(s: State, req: ReplayRequest, gen: Id, now: int, s': State, reply: Reply)
    requires GraphInv(s.recs) && gen !in s.recs && ReplayStep(s, req, gen, now, s', reply)
    ensures GraphInv(s'.recs)
    ensures forall x :: x in s.recs ==> x in s'.recs && s'.recs[x] == s.recs[x]
  {
    if ReplayError(s, req).None? {
      var r := s'.recs[gen];
      assert Parents(r) == {};
      assert Waiting(s.recs, {}) == {};
      GraphAdded(s.recs, gen, r);
    }
  }

  /** Every operation keeps the dependency invariant. */
  lemma StepGraph(c: Config, s: State, op: Op, s': State, reply: Reply)
    requires GraphInv(s.recs) && Step(c, s, op, s', reply)
    ensures GraphInv(s'.recs)
  {
    hide GraphInv, Outcome, Submittable, Submitted, SubmitError, Doomed;
    match op
    case OpEnqueue(t, gen, now) => EnqueueEffects(s, t, gen, now, s', reply);
    case OpClaim(queues, token, now, got) =>
      if got.Some? { PlainEffects(s, got.value, ClaimRec(c, s.recs[got.value], token, now), s', reply); }
    case OpAck(id, token, result, now) =>
      if LeaseError(s.recs, id, token).None? { FinalEffects(s, id, AckRec(s.recs[id], result, now), now, s', reply); }
    case OpFail(id, token, msg, kind, at, now) =>
      if LeaseError(s.recs, id, token).None? {
        var r := FailRec(c, s.recs[id], msg, kind, at, now);
        if IsFinal(r.task.status) {
          FinalEffects(s, id, r, now, s', reply);
        } else {
          PlainEffects(s, id, r, s', reply);
        }
      }
    case OpCancel(id, now) =>
      if id in s.recs && !IsFinal(StatusOf(s.recs, id)) {
        if StatusOf(s.recs, id).Running? { PlainEffects(s, id, s.recs[id].(cancelRequested := true), s', reply); }
        else { FinalEffects(s, id, CanceledRec(s.recs[id], CanceledByRequest, now), now, s', reply); }
      }
    case OpFinishCanceled(id, token, now) =>
      if LeaseError(s.recs, id, token).None? {
        FinalEffects(s, id, CanceledRec(s.recs[id], CanceledByRequest, now).(cancelRequested := false), now, s', reply);
      }
    case OpRequeue(id, token) =>
      if LeaseError(s.recs, id, token).None? { PlainEffects(s, id, RequeueRec(s.recs[id]), s', reply); }
    case OpHeartbeat(id, token, now) =>
      if LeaseError(s.recs, id, token).None? {
        PlainEffects(s, id, s.recs[id].(leaseUntil := now + TtlFor(c, s.recs[id].task.queue)), s', Ok);
      }
    case OpReplay(req, gen, now) => ReplayEffects(s, req, gen, now, s', reply);
    case OpReap(now, skip, unseen) => ReapCallEffects(c, s, now, skip, unseen, s');
  }

  /** In one step a record stays as it is, has the operation's own effect, or is a blocked task touched by a cascade. */
  lemma StepEvolves(c: Config, s: State, op: Op, s': State, reply: Reply)
    requires GraphInv(s.recs) && Step(c, s, op, s', reply)
    ensures s.recs.Keys <= s'.recs.Keys
    ensures forall x :: x in s.recs ==> Evolves(c, op, x, s.recs[x], s'.recs[x])
  {
    hide GraphInv, Outcome, Submittable, Submitted, SubmitError, CascadeMove, FailRec, ReapRec, Doomed;
    match op
    case OpEnqueue(t, gen, now) => EnqueueEffects(s, t, gen, now, s', reply);
    case OpAck(id, token, result, now) =>
      if LeaseError(s.recs, id, token).None? { FinalEffects(s, id, AckRec(s.recs[id], result, now), now, s', reply); }
    case OpFail(id, token, msg, kind, at, now) =>
      if LeaseError(s.recs, id, token).None? {
        var r := FailRec(c, s.recs[id], msg, kind, at, now);
        FailShape(c, s.recs[id], msg, kind, at, now);
        if IsFinal(r.task.status) { FinalEffects(s, id, r, now, s', reply); }
      }
    case OpCancel(id, now) =>
      if id in s.recs && !IsFinal(StatusOf(s.recs, id)) && !StatusOf(s.recs, id).Running? {
        FinalEffects(s, id, CanceledRec(s.recs[id], CanceledByRequest, now), now, s', reply);
      }
    case OpFinishCanceled(id, token, now) =>
      if LeaseError(s.recs, id, token).None? {
        FinalEffects(s, id, CanceledRec(s.recs[id], CanceledByRequest, now).(cancelRequested := false), now, s', reply);
      }
    case OpReplay(req, gen, now) => ReplayEffects(s, req, gen, now, s', reply);
    case OpReap(now, skip, unseen) => ReapCallEffects(c, s, now, skip, unseen, s');
    case _ =>
  }

  lemma FailShape(c: Config, r: Rec, msg: string, kind: FailKind, at: int, now: int)
    ensures SameShape(r, FailRec(c, r, msg, kind, at, now))
    ensures FailRec(c, r, msg, kind, at, now).task.status.Failed?
            || FailRec(c, r, msg, kind, at, now).task.status.Retrying?
  {}
}
