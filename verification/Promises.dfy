/** What one call does, in plain fields: each clause reads the records before and after and none of the functions the
    steps are built from. Every backend takes these steps. */
module Promises {
  import opened Model
  import opened Deps
  import opened Cascade
  import opened Spec
  import opened Plain
  import opened Graph
  import opened Invariants
  import opened Reachable
  import opened Runs

  ghost predicate HasLease(recs: Recs, id: Id, token: Token) {
    id in recs && recs[id].task.status == Running && token != "" && recs[id].task.leaseToken == token
  }

  ghost predicate NoLease(s: State, id: Id, s': State, reply: Reply) {
    s' == s && reply == Err(if id in s.recs then LeaseLost(id) else TaskNotFound(id))
  }

  /** The call is answered Ok, the task's record is r, and nothing comes, goes or joins a chain. */
  ghost predicate Becomes(s: State, id: Id, r: Rec, s': State, reply: Reply) {
    reply == Ok && s'.recs.Keys == s.recs.Keys && s'.chains == s.chains && s'.replayed == s.replayed
    && id in s'.recs && s'.recs[id] == r
  }

  // ---------------------------------------------------------------------------------------------
  // The other tasks
  // ---------------------------------------------------------------------------------------------

  /** What a call leaves of a task it is not about. Only a blocked one can change: canceled, naming a dead parent, if it
      has one and does not ignore such parents; otherwise pending once no parent is open, and blocked with the number of
      open parents until then. */
  ghost predicate BystanderLaw(recs: Recs, recs': Recs, x: Id, now: int)
    requires x in recs && x in recs'
  {
    var r, r', deps := recs[x], recs'[x], recs[x].task.dependsOn;
    if r.task.status != Blocked then r' == r
    else if r.task.policy != IgnoreParentFail && HasDeadParent(recs', deps) then
      NamesDeadParent(recs', deps, r'.task.lastError)
      && r' == r.(task := r.task.(status := Canceled, lastError := r'.task.lastError, finishedAt := now,
                                  leaseToken := ""), leaseUntil := 0)
    else if OpenParents(recs', deps) == {} then r' == r.(task := r.task.(status := Pending), pendingParents := 0)
    else r' == r.(pendingParents := |OpenParents(recs', deps)|)
  }

  /** A cascade ends no task that ignores failed parents: not one it did not start from. */
  lemma IgnorersSpared(pre: Recs, roots: set<Id>, now: int, post: Recs, x: Id)
    requires Outcome(pre, roots, now, post) && x in pre
    requires Open(pre[x].task.status) && pre[x].task.policy == IgnoreParentFail
    ensures x in post && Open(post[x].task.status)
  {
    SettledOne(pre, roots, Doomed(pre, roots), now, post, x);
  }

  /** Whom x hears from in a cascade: its parents among the roots and those the cascade cancels. */
  ghost function HeardOf(pre: Recs, roots: set<Id>, post: Recs, x: Id): set<Id>
    requires x in pre
  {
    set p | p in pre[x].task.dependsOn
            && (p in roots || (p in pre && p in post && Open(pre[p].task.status) && post[p].task.status == Canceled))
  }

  /** One cascade on any state, consistent or not: an ended task stays as it is. One that ignores dead parents, or hears
      of completed ones, counts them down to no less than zero, and a blocked one that reaches zero is pending. Any
      other that hears of a dead parent is canceled, naming one, or only marked while it runs. */
  ghost predicate CascadePlain(pre: Recs, roots: set<Id>, now: int, post: Recs, x: Id)
    requires x in pre && x in post
  {
    var r, r', heard := pre[x], post[x], HeardOf(pre, roots, post, x);
    var dead := forall p :: p in roots ==> p in pre && (pre[p].task.status == Failed || pre[p].task.status == Canceled);
    if !Open(r.task.status) || heard == {} then r' == r
    else if r.task.policy == IgnoreParentFail || !dead then
      r'.pendingParents == (if r.pendingParents > |heard| then r.pendingParents - |heard| else 0)
      && r' == r.(pendingParents := r'.pendingParents,
                  task := r.task.(status := if r.task.status == Blocked && r'.pendingParents == 0 then Pending
                                            else r.task.status))
    else if r.task.status == Running then r' == r.(cancelRequested := true)
    else
      NamesDeadParent(post, r.task.dependsOn, r'.task.lastError)
      && r' == r.(task := r.task.(status := Canceled, lastError := r'.task.lastError, finishedAt := now,
                                  leaseToken := ""), leaseUntil := 0)
  }

  lemma OutcomePlainly(pre: Recs, roots: set<Id>, now: int, post: Recs, x: Id)
    requires Rooted(pre, roots) && Outcome(pre, roots, now, post) && x in pre
    ensures x in post && CascadePlain(pre, roots, now, post, x)
  {
    var gone := Doomed(pre, roots);
    SettledOne(pre, roots, gone, now, post, x);
    CanceledAreGone(pre, roots, now, post);
    HeardPlain(pre, roots, now, post, x);
    hide Doomed, Rooted, Outcome, HeardOf, Told, CascadePlain;
    if x in gone {
      GonePlain(pre, roots, now, post, x);
    } else {
      SparedPlain(pre, roots, Parents(pre[x]) * (roots + gone), now, post, x);
    }
  }

  lemma HeardPlain(pre: Recs, roots: set<Id>, now: int, post: Recs, x: Id)
    requires Outcome(pre, roots, now, post) && x in pre
    ensures HeardOf(pre, roots, post, x) == Parents(pre[x]) * (roots + Doomed(pre, roots))
  {
    CanceledAreGone(pre, roots, now, post);
    hide Doomed, Outcome;
    forall p ensures p in HeardOf(pre, roots, post, x) <==> p in Parents(pre[x]) * (roots + Doomed(pre, roots)) {}
  }

  lemma GonePlain(pre: Recs, roots: set<Id>, now: int, post: Recs, x: Id)
    requires Rooted(pre, roots) && Outcome(pre, roots, now, post) && x in pre && x in post
    requires x in Doomed(pre, roots) && SettledAt(pre, roots, Doomed(pre, roots), now, post, x)
    requires HeardOf(pre, roots, post, x) == Parents(pre[x]) * (roots + Doomed(pre, roots))
    ensures CascadePlain(pre, roots, now, post, x)
  {
    hide Doomed, Rooted, Outcome, HeardOf;
    var p :| p in Parents(pre[x]) * (roots + Doomed(pre, roots))
             && post[x].task.lastError == ParentFailureReason(p, FinalStatus(pre, roots, p));
    DeadRootOrGone(pre, roots, now, post, p);
    assert p in pre[x].task.dependsOn;
  }

  lemma SparedPlain(pre: Recs, roots: set<Id>, heard: set<Id>, now: int, post: Recs, x: Id)
    requires x in pre && x in post && heard == HeardOf(pre, roots, post, x)
    requires Told(pre, roots, DeadRoots(pre, roots), false, heard, now, pre[x], post[x])
    ensures CascadePlain(pre, roots, now, post, x)
  {
    hide HeardOf, NamesDeadParent;
  }

  lemma CanceledAreGone(pre: Recs, roots: set<Id>, now: int, post: Recs)
    requires Outcome(pre, roots, now, post)
    ensures pre.Keys == post.Keys && Doomed(pre, roots) <= pre.Keys
    ensures forall p :: p in pre ==>
              (p in Doomed(pre, roots) <==> Open(pre[p].task.status) && post[p].task.status == Canceled)
  {
    hide Doomed, NamesOne;
    forall p | p in pre
      ensures p in Doomed(pre, roots) <==> Open(pre[p].task.status) && post[p].task.status == Canceled
    {
      SettledOne(pre, roots, Doomed(pre, roots), now, post, p);
    }
  }

  lemma DeadRootOrGone(pre: Recs, roots: set<Id>, now: int, post: Recs, p: Id)
    requires Rooted(pre, roots) && Outcome(pre, roots, now, post) && DeadRoots(pre, roots)
    requires p in roots + Doomed(pre, roots)
    ensures p in post && post[p].task.status == FinalStatus(pre, roots, p)
    ensures post[p].task.status == Failed || post[p].task.status == Canceled
  {
    SettledOne(pre, roots, Doomed(pre, roots), now, post, p);
  }

  /** A task that a cascade cancels does not ignore dead parents and names one of those it has. */
  lemma CanceledNames(pre0: Recs, pre: Recs, roots: set<Id>, now: int, post: Recs, x: Id)
    requires Ending(pre0, pre, roots) && Outcome(pre, roots, now, post) && x in pre0 && x !in roots
    requires pre[x] == pre0[x] && pre0[x].task.status == Blocked && post[x].task.status == Canceled
    ensures pre0[x].task.policy != IgnoreParentFail
    ensures NamesDeadParent(post, pre0[x].task.dependsOn, post[x].task.lastError)
    ensures post[x] == CanceledRec(pre0[x], post[x].task.lastError, now)
  {
    assert x in pre;
    hide Ending, Doomed;
    var gone := Doomed(pre, roots);
    SettledOne(pre, roots, gone, now, post, x);
    var p :| p in Parents(pre[x]) * (roots + gone)
             && post[x].task.lastError == ParentFailureReason(p, FinalStatus(pre, roots, p));
    DeadOne(pre0, pre, roots, now, post, p);
    assert p in pre0[x].task.dependsOn;
  }

  lemma DeadOne(pre0: Recs, pre: Recs, roots: set<Id>, now: int, post: Recs, p: Id)
    requires Ending(pre0, pre, roots) && Outcome(pre, roots, now, post) && DeadRoots(pre, roots)
    requires p in roots + Doomed(pre, roots)
    ensures p in post && post[p].task.status == FinalStatus(pre, roots, p)
    ensures post[p].task.status == Failed || post[p].task.status == Canceled
  {
    DeadRootOrGone(pre, roots, now, post, p);
  }

  /** A consistent record in plain fields. */
  lemma NodePlain(recs: Recs, x: Id)
    requires GraphInv(recs) && x in recs && recs[x].task.status != Canceled
    ensures var deps := recs[x].task.dependsOn;
            (recs[x].task.status == Blocked <==> OpenParents(recs, deps) != {})
            && (recs[x].task.status == Blocked ==> recs[x].pendingParents == |OpenParents(recs, deps)|)
            && (recs[x].task.policy != IgnoreParentFail ==> !HasDeadParent(recs, deps))
  {
    var deps := recs[x].task.dependsOn;
    assert NodeOk(recs, x);
    assert OpenParents(recs, deps) == Waiting(recs, Parents(recs[x]));
    if HasDeadParent(recs, deps) {
      var p :| p in deps && p in recs && (recs[p].task.status == Failed || recs[p].task.status == Canceled);
      assert p in Parents(recs[x]);
    }
  }

  /** A move of a blocked task between consistent states, its cancellation explained, obeys the law. */
  lemma MovePlain(recs: Recs, recs': Recs, x: Id, now: int)
    requires GraphInv(recs') && x in recs && x in recs' && recs[x].task.status == Blocked
    requires recs'[x] == recs[x] || CascadeMove(recs[x], recs'[x])
    requires recs'[x].task.status == Canceled ==>
               recs[x].task.policy != IgnoreParentFail
               && NamesDeadParent(recs', recs[x].task.dependsOn, recs'[x].task.lastError)
               && recs'[x] == CanceledRec(recs[x], recs'[x].task.lastError, now)
    ensures BystanderLaw(recs, recs', x, now)
  {
    hide GraphInv;
    var deps := recs[x].task.dependsOn;
    if recs'[x].task.status == Canceled {
      var p :| p in deps && p in recs'
               && if recs'[p].task.status == Failed then recs'[x].task.lastError == ParentFailed(p)
                  else recs'[p].task.status == Canceled && recs'[x].task.lastError == ParentCanceled(p);
      assert HasDeadParent(recs', deps);
    } else {
      NodePlain(recs', x);
    }
  }

  /** The law for one cascade. */
  lemma CascadeLaw(pre0: Recs, pre: Recs, roots: set<Id>, now: int, post: Recs, x: Id)
    requires GraphInv(pre0) && GraphInv(post) && Ending(pre0, pre, roots) && Outcome(pre, roots, now, post)
    requires x in pre0 && x !in roots && pre[x] == pre0[x] && pre0[x].task.status == Blocked
    ensures x in post && BystanderLaw(pre0, post, x, now)
  {
    assert x in pre;
    hide GraphInv, Ending, CascadeMove, BystanderLaw, Doomed, CanceledRec;
    SettledOne(pre, roots, Doomed(pre, roots), now, post, x);
    SettledMoves(pre0, pre, roots, Doomed(pre, roots), now, post, x);
    if post[x].task.status == Canceled {
      CanceledNames(pre0, pre, roots, now, post, x);
    }
    MovePlain(pre0, post, x, now);
  }

  /** The call is about task x. */
  predicate About(op: Op, x: Id, r: Rec) {
    match op
    case OpClaim(_, _, _, got) => got == Some(x)
    case OpAck(id, _, _, _) => id == x
    case OpFail(id, _, _, _, _, _) => id == x
    case OpCancel(id, _) => id == x
    case OpFinishCanceled(id, _, _) => id == x
    case OpRequeue(id, _) => id == x
    case OpHeartbeat(id, _, _) => id == x
    case OpReap(now, skip, _) => x !in skip && r.task.status == Running && r.leaseUntil < now
    case _ => false
  }

  function When(op: Op): int {
    if op.OpRequeue? then 0 else op.now
  }

  /** Every call obeys it towards every task it is not about. */
  lemma Bystanders(c: Config, s: State, op: Op, s': State, reply: Reply, x: Id)
    requires Inv(s) && Step(c, s, op, s', reply) && x in s.recs && !About(op, x, s.recs[x])
    ensures x in s'.recs && BystanderLaw(s.recs, s'.recs, x, When(op))
  {
    hide GraphInv, ChainInv, Step, Own, CascadeMove, RecOk, BystanderLaw, About;
    StepEvolves(c, s, op, s', reply);
    StepGraph(c, s, op, s', reply);
    NotOwn(c, op, x, s.recs[x], s'.recs[x]);
    if s.recs[x].task.status == Blocked {
      if s'.recs[x].task.status == Canceled {
        CanceledByCall(c, s, op, s', reply, x);
      } else {
        MovePlain(s.recs, s'.recs, x, When(op));
      }
    } else {
      StaysPut(s.recs, s'.recs, x, When(op));
    }
  }

  lemma NotOwn(c: Config, op: Op, x: Id, r: Rec, r': Rec)
    requires Evolves(c, op, x, r, r') && !About(op, x, r)
    ensures r' == r || CascadeMove(r, r')
  {}

  lemma StaysPut(recs: Recs, recs': Recs, x: Id, now: int)
    requires x in recs && x in recs' && recs[x].task.status != Blocked
    requires recs'[x] == recs[x] || CascadeMove(recs[x], recs'[x])
    ensures BystanderLaw(recs, recs', x, now)
  {}

  /** A blocked task that a call on another one cancels. */
  lemma CanceledByCall(c: Config, s: State, op: Op, s': State, reply: Reply, x: Id)
    requires Inv(s) && GraphInv(s'.recs) && Step(c, s, op, s', reply) && x in s.recs && x in s'.recs
    requires !About(op, x, s.recs[x]) && s.recs[x].task.status == Blocked && s'.recs[x].task.status == Canceled
    ensures BystanderLaw(s.recs, s'.recs, x, When(op))
  {
    hide GraphInv, ChainInv, BystanderLaw, Outcome, AckRec, FailRec, CanceledRec, ReapCall, EnqueueStep, ReplayStep,
         RecOk;
    if op.OpReap? {
      ReapLawOthers(c, s, op.now, op.skip, op.unseen, s', x);
    } else if op.OpEnqueue? {
      EnqueueEffects(s, op.t, op.gen, op.now, s', reply);
    } else if op.OpReplay? {
      ReplayEffects(s, op.req, op.gen, op.now, s', reply);
    } else if op.OpAck? {
      var r := AckRec(s.recs[op.id], op.result, op.now);
      AckEnds(s.recs[op.id], op.result, op.now);
      EndLaw(s, op.id, r, op.now, s', reply, x);
    } else if op.OpFail? {
      var r := FailRec(c, s.recs[op.id], op.msg, op.kind, op.at, op.now);
      FailShape(c, s.recs[op.id], op.msg, op.kind, op.at, op.now);
      EndLaw(s, op.id, r, op.now, s', reply, x);
    } else if op.OpCancel? {
      CancelEnds(s.recs[op.id], CanceledByRequest, op.now);
      CancelPlainEnds(s.recs[op.id], op.now);
      EndLaw(s, op.id, CanceledRec(s.recs[op.id], CanceledByRequest, op.now), op.now, s', reply, x);
    } else if op.OpFinishCanceled? {
      CancelEnds(s.recs[op.id], CanceledByRequest, op.now);
      var r := CanceledRec(s.recs[op.id], CanceledByRequest, op.now).(cancelRequested := false);
      EndLaw(s, op.id, r, op.now, s', reply, x);
    }
  }

  lemma CancelPlainEnds(r: Rec, now: int)
    requires !IsFinal(r.task.status)
    ensures LegalEnd(r, CanceledRec(r, CanceledByRequest, now))
  {}

  lemma EndLaw(s: State, id: Id, r: Rec, now: int, s': State, reply: Reply, x: Id)
    requires GraphInv(s.recs) && GraphInv(s'.recs) && id in s.recs && LegalEnd(s.recs[id], r)
    requires FinalStep(s, id, r, now, s', reply) && x in s.recs && x != id && s.recs[x].task.status == Blocked
    ensures x in s'.recs && BystanderLaw(s.recs, s'.recs, x, now)
  {
    hide GraphInv, Outcome, LegalEnd, BystanderLaw;
    EndOne(s.recs, id, r);
    CascadeLaw(s.recs, s.recs[id := r], {id}, now, s'.recs, x);
  }

  lemma ReapLawOthers(c: Config, s: State, now: int, skip: set<Id>, unseen: set<Id>, s': State, x: Id)
    requires GraphInv(s.recs) && GraphInv(s'.recs) && ReapCall(c, s, now, skip, unseen, s')
    requires x in s.recs && s.recs[x].task.status == Blocked
    ensures x in s'.recs && BystanderLaw(s.recs, s'.recs, x, now)
  {
    hide GraphInv, Outcome, ReapRec, Ending;
    var recs0, which := Overlooked(s.recs, unseen, now), s.recs.Keys - skip;
    OverlookedGraph(s.recs, unseen, now);
    EndReaped(c, recs0, which, now);
    assert recs0[x] == s.recs[x] && recs0.Keys == s.recs.Keys;
    CascadeLaw(recs0, Reaped(c, recs0, which, now), Ended(c, recs0, which, now), now, s'.recs, x);
  }

  // ---------------------------------------------------------------------------------------------
  // The task a call is about
  // ---------------------------------------------------------------------------------------------

  /** Ack: the holder completes the task; a result replaces the stored one, an empty one erases it, none keeps it. */
  lemma AckLaw(c: Config, s: State, id: Id, token: Token, result: Option<Bytes>, now: int, s': State, reply: Reply)
    requires Inv(s) && Step(c, s, OpAck(id, token, result, now), s', reply)
    ensures if HasLease(s.recs, id, token)
            then var r := s.recs[id];
                 var kept := if result == None then r.task.result else if result.value == "" then None else result;
                 Becomes(s, id, r.(task := r.task.(status := Completed, result := kept, finishedAt := now,
                                                   leaseToken := ""), leaseUntil := 0, cancelRequested := false),
                         s', reply)
            else NoLease(s, id, s', reply)
  {
    hide Inv, Outcome;
    if HasLease(s.recs, id, token) {
      StepOthers(c, s, OpAck(id, token, result, now), s', reply);
      OwnStep(c, s, OpAck(id, token, result, now), s', reply, id);
    }
  }

  /** The task after a failure that ends it. */
  function FailedFor(r: Rec, why: ErrText, now: int): Rec {
    r.(task := r.task.(status := Failed, lastError := why, finishedAt := now, leaseToken := ""), leaseUntil := 0,
       cancelRequested := false)
  }

  /** The task after a failure that it survives: the mark stays, it runs again at `at`. */
  function RetriedAt(r: Rec, msg: string, at: int): Rec {
    r.(task := r.task.(status := Retrying, lastError := Message(msg), runAt := at, leaseToken := ""), leaseUntil := 0)
  }

  /** Fail: a business failure counts as an attempt and ends the task beyond MaxRetry; a throttled one counts as a
      throttle and ends it at the cap; a skip ends it at once. Otherwise the task runs again at `at`. */
  lemma FailLaw(c: Config, s: State, id: Id, token: Token, msg: string, kind: FailKind, at: int, now: int, s': State,
                reply: Reply)
    requires Inv(s) && Step(c, s, OpFail(id, token, msg, kind, at, now), s', reply)
    ensures if !HasLease(s.recs, id, token) then NoLease(s, id, s', reply)
            else
              var r, t := s.recs[id], s.recs[id].task;
              match kind
              case FailBusiness =>
                var r1 := r.(task := t.(attempts := t.attempts + 1));
                Becomes(s, id, if t.attempts + 1 > t.maxRetry then FailedFor(r1, Message(msg), now)
                               else RetriedAt(r1, msg, at), s', reply)
              case FailThrottled =>
                var r1 := r.(task := t.(throttled := t.throttled + 1));
                Becomes(s, id, if t.throttled + 1 >= c.throttledMax
                               then FailedFor(r1, ThrottledTimes(t.throttled + 1), now)
                               else RetriedAt(r1, msg, at), s', reply)
              case FailSkip => Becomes(s, id, FailedFor(r, Message(msg), now), s', reply)
  {
    hide Inv, Outcome;
    if HasLease(s.recs, id, token) {
      StepOthers(c, s, OpFail(id, token, msg, kind, at, now), s', reply);
      OwnStep(c, s, OpFail(id, token, msg, kind, at, now), s', reply, id);
    }
  }

  /** Cancel: an open task is canceled at once, a running one only marked; an ended one refuses. */
  lemma CancelLaw(c: Config, s: State, id: Id, now: int, s': State, reply: Reply)
    requires Inv(s) && Step(c, s, OpCancel(id, now), s', reply)
    ensures if id !in s.recs then s' == s && reply == Err(TaskNotFound(id))
            else
              var r := s.recs[id];
              if !Open(r.task.status) then s' == s && reply == Err(AlreadyFinal(id))
              else if r.task.status == Running then Becomes(s, id, r.(cancelRequested := true), s', reply)
              else Becomes(s, id, r.(task := r.task.(status := Canceled, lastError := CanceledByRequest,
                                                     finishedAt := now, leaseToken := ""), leaseUntil := 0), s', reply)
  {
    hide Inv, Outcome;
    if id in s.recs && Open(s.recs[id].task.status) {
      StepOthers(c, s, OpCancel(id, now), s', reply);
      if s.recs[id].task.status != Running {
        CancelPlainEnds(s.recs[id], now);
        assert GraphInv(s.recs) by { InvGraphOf(s); }
        FinalEffects(s, id, CanceledRec(s.recs[id], CanceledByRequest, now), now, s', reply);
      }
    }
  }

  lemma InvGraphOf(s: State)
    requires Inv(s)
    ensures GraphInv(s.recs)
  {}

  /** FinishCanceled: the holder ends the task as canceled. */
  lemma FinishCanceledLaw(c: Config, s: State, id: Id, token: Token, now: int, s': State, reply: Reply)
    requires Inv(s) && Step(c, s, OpFinishCanceled(id, token, now), s', reply)
    ensures if HasLease(s.recs, id, token)
            then var r := s.recs[id];
                 Becomes(s, id, r.(task := r.task.(status := Canceled, lastError := CanceledByRequest,
                                                   finishedAt := now, leaseToken := ""),
                                   leaseUntil := 0, cancelRequested := false), s', reply)
            else NoLease(s, id, s', reply)
  {
    hide Inv, Outcome;
    if HasLease(s.recs, id, token) {
      StepOthers(c, s, OpFinishCanceled(id, token, now), s', reply);
      OwnStep(c, s, OpFinishCanceled(id, token, now), s', reply, id);
    }
  }

  /** Requeue: the holder gives the task back as it was, without the mark. */
  lemma RequeueLaw(c: Config, s: State, id: Id, token: Token, s': State, reply: Reply)
    requires Step(c, s, OpRequeue(id, token), s', reply)
    ensures if HasLease(s.recs, id, token)
            then var r := s.recs[id];
                 Becomes(s, id, r.(task := r.task.(status := Pending, leaseToken := ""), leaseUntil := 0,
                                   cancelRequested := false), s', reply)
            else NoLease(s, id, s', reply)
  {}

  /** The lease granted at `now` on a task of this queue: a positive override of the queue, else the default. */
  ghost predicate LeasedUntil(c: Config, queue: string, now: int, until: int) {
    if queue in c.ttl && c.ttl[queue] > 0 then until == now + c.ttl[queue] else until == now + c.defaultTTL
  }

  /** Heartbeat: the holder's lease is renewed, and the answer tells whether the task should stop. */
  lemma HeartbeatLaw(c: Config, s: State, id: Id, token: Token, now: int, s': State, reply: Reply)
    requires Step(c, s, OpHeartbeat(id, token, now), s', reply)
    ensures if HasLease(s.recs, id, token)
            then id in s'.recs && LeasedUntil(c, s.recs[id].task.queue, now, s'.recs[id].leaseUntil)
                 && Becomes(s, id, s.recs[id].(leaseUntil := s'.recs[id].leaseUntil), s', Ok)
                 && reply == if s.recs[id].cancelRequested then Err(TaskCanceled(id)) else Ok
            else NoLease(s, id, s', reply)
  {}

  predicate Due(r: Rec, queues: set<string>, now: int) {
    (r.task.status == Pending || r.task.status == Retrying) && r.task.queue in queues && r.task.runAt <= now
  }

  /** Claim: a task that waits in one of the queues and is due, with the token drawn, a fresh lease and the time of its
      first start; none only when there is no such task. */
  lemma ClaimLaw(c: Config, s: State, queues: set<string>, token: Token, now: int, got: Option<Id>, s': State,
                 reply: Reply)
    requires Step(c, s, OpClaim(queues, token, now, got), s', reply)
    ensures got == None ==> s' == s && reply == Ok && forall x :: x in s.recs ==> !Due(s.recs[x], queues, now)
    ensures got != None ==>
              var id := got.value;
              id in s.recs && id in s'.recs && Due(s.recs[id], queues, now)
              && LeasedUntil(c, s.recs[id].task.queue, now, s'.recs[id].leaseUntil)
              && var r := s.recs[id];
                 var start := if r.task.startedAt == 0 then now else r.task.startedAt;
                 Becomes(s, id, r.(task := r.task.(status := Running, leaseToken := token, startedAt := start),
                                   leaseUntil := s'.recs[id].leaseUntil), s', reply)
  {
    if got == None {
      forall x | x in s.recs ensures !Due(s.recs[x], queues, now) {
        assert !Ready(s.recs, queues, now, x);
      }
    }
  }

  /** A lease that ran out: a mark that the reaper sees ends the task as canceled; otherwise one more lease is lost, at
      the cap the task has failed, below it waits again. A reap sees every mark unless it is told to overlook some. */
  lemma ReapLaw(c: Config, s: State, now: int, skip: set<Id>, unseen: set<Id>, s': State, reply: Reply, x: Id)
    requires Inv(s) && Step(c, s, OpReap(now, skip, unseen), s', reply)
    requires x in s.recs && x !in skip && s.recs[x].task.status == Running && s.recs[x].leaseUntil < now
    ensures var r, lost := s.recs[x], s.recs[x].task.leaseLost + 1;
            Becomes(s, x,
                    if r.cancelRequested && x !in unseen
                    then r.(task := r.task.(status := Canceled, lastError := CanceledByRequest, finishedAt := now,
                                            leaseToken := ""), leaseUntil := 0, cancelRequested := false)
                    else if lost >= c.leaseLostMax
                    then FailedFor(r.(task := r.task.(leaseLost := lost)), LeaseExpiredTimes(lost), now)
                    else r.(task := r.task.(status := Pending, leaseLost := lost, leaseToken := ""), leaseUntil := 0,
                            cancelRequested := false), s', reply)
  {
    hide Inv, ReapCall;
    StepOthers(c, s, OpReap(now, skip, unseen), s', reply);
    OwnStep(c, s, OpReap(now, skip, unseen), s', reply, x);
  }

  /** The count a reap answers: the leases that had run out. */
  lemma ReapCountLaw(c: Config, s: State, now: int, s': State, count: nat)
    requires ReapStep(c, s, now, {}, s', count)
    ensures count == |set x | x in s.recs && s.recs[x].task.status == Running && s.recs[x].leaseUntil < now|
  {
    assert ExpiredIds(s.recs, {}, now) == set x | x in s.recs && s.recs[x].task.status == Running
                                                  && s.recs[x].leaseUntil < now;
  }

  // ---------------------------------------------------------------------------------------------
  // New tasks
  // ---------------------------------------------------------------------------------------------

  /** Somebody carries the key. */
  ghost predicate KeyTaken(recs: Recs, key: Key) {
    key != "" && exists x :: x in recs && recs[x].task.businessKey == key
  }

  lemma KeyChain(s: State, key: Key)
    requires Inv(s)
    ensures KeyTaken(s.recs, key) <==> key != "" && key in s.chains && s.chains[key] != []
    ensures key in s.chains ==> key != "" && s.chains[key] != []
  {
    hide GraphInv;
    if key in s.chains {
      assert ChainOk(s, key) && LinkOk(s, key, s.chains[key], 0);
    }
    if KeyTaken(s.recs, key) {
      var x :| x in s.recs && s.recs[x].task.businessKey == key;
      assert Listed(s, x);
    }
  }

  /** A submission to accept carries no replayOf, its key is free, its id new and every parent known. */
  ghost predicate Acceptable(s: State, t: Task) {
    t.replayOf == "" && !KeyTaken(s.recs, t.businessKey) && (t.id == "" || t.id !in s.recs)
    && forall p :: p in t.dependsOn ==> p in s.recs
  }

  /** The stored task: as submitted, with its id, a time to run, a policy and a creation time; without a lease, and with
      empty values stored as none. */
  predicate StoredAs(t: Task, id: Id, now: int, t': Task) {
    t'.id == id && t'.businessKey == t.businessKey && t'.replayOf == "" && t'.typ == t.typ && t'.queue == t.queue
    && t'.payload == (if t.payload == Some("") then None else t.payload)
    && t'.result == (if t.result == Some("") then None else t.result)
    && t'.attempts == t.attempts && t'.maxRetry == t.maxRetry && t'.leaseLost == t.leaseLost
    && t'.throttled == t.throttled && t'.dependsOn == t.dependsOn
    && t'.runAt == (if t.runAt == 0 then now else t.runAt)
    && t'.policy == (if t.policy == Unset then FailFast else t.policy)
    && t'.leaseToken == "" && t'.createdAt == now && t'.startedAt == t.startedAt
  }

  /** Its status: canceled, naming the first parent that failed or was canceled, unless it ignores such parents; blocked
      with the number of distinct open parents; pending when there are none. */
  ghost predicate StartsAs(recs: Recs, t: Task, now: int, r: Rec) {
    r.leaseUntil == 0 && !r.cancelRequested
    && if t.policy != IgnoreParentFail && HasDeadParent(recs, t.dependsOn) then
         r.task.status == Canceled && r.pendingParents == 0 && r.task.finishedAt == now
         && NamesFirst(recs, t.dependsOn, r.task.lastError)
       else
         r.task.lastError == t.lastError && r.task.finishedAt == t.finishedAt
         && r.pendingParents == |OpenParents(recs, t.dependsOn)|
         && r.task.status == if OpenParents(recs, t.dependsOn) != {} then Blocked else Pending
  }

  /** e names the first mention of a dead parent. */
  ghost predicate NamesFirst(recs: Recs, deps: seq<Id>, e: ErrText) {
    exists i :: 0 <= i < |deps| && NamesAt(recs, deps, i, e)
  }

  ghost predicate NamesAt(recs: Recs, deps: seq<Id>, i: nat, e: ErrText)
    requires i < |deps|
  {
    NamesDeadParent(recs, [deps[i]], e) && !HasDeadParent(recs, deps[..i])
  }

  /** Enqueue, accepted. */
  lemma EnqueueLaw(c: Config, s: State, t: Task, gen: Id, now: int, s': State, reply: Reply)
    requires Inv(s) && Step(c, s, OpEnqueue(t, gen, now), s', reply)
    ensures Acceptable(s, t) <==> reply == Ok
    ensures reply == Ok ==>
              var id := if t.id == "" then gen else t.id;
              id !in s.recs && id in s'.recs && s'.recs == s.recs[id := s'.recs[id]] && s'.replayed == s.replayed
              && StoredAs(t, id, now, s'.recs[id].task) && StartsAs(s.recs, t, now, s'.recs[id])
              && s'.chains == if t.businessKey == "" then s.chains else s.chains[t.businessKey := [id]]
  {
    hide GraphInv, ChainInv, RecOk;
    KeyChain(s, t.businessKey);
    if reply == Ok {
      var id := if t.id == "" then gen else t.id;
      StartPlain(s, t, id, now, s'.recs[id]);
      assert [] + [id] == [id];
    }
  }

  lemma StartPlain(s: State, t: Task, id: Id, now: int, r: Rec)
    requires Submitted(s.recs, t, id, now, r) && forall p :: p in t.dependsOn ==> p in s.recs
    ensures StartsAs(s.recs, t, now, r)
  {
    var ps := ParentSet(t.dependsOn);
    assert Waiting(s.recs, ps) == OpenParents(s.recs, t.dependsOn);
    assert AnyDead(s.recs, ps) <==> HasDeadParent(s.recs, t.dependsOn) by { DeadPlain(s.recs, t.dependsOn); }
    if t.policy != IgnoreParentFail && HasDeadParent(s.recs, t.dependsOn) {
      FirstPlain(s.recs, t.dependsOn, r.task.lastError);
    }
  }

  lemma {:induction false} FirstPlain(recs: Recs, deps: seq<Id>, e: ErrText)
    requires NamesDead(recs, deps, e)
    ensures NamesFirst(recs, deps, e)
  {
    var last := |deps| - 1;
    if FirstDead(recs, deps[..last]).Some? {
      FirstPlain(recs, deps[..last], e);
      var i :| 0 <= i < last && NamesAt(recs, deps[..last], i, e);
      assert deps[..last][..i] == deps[..i];
      assert NamesAt(recs, deps, i, e);
    } else {
      FirstOf(recs, deps[..last]);
      assert deps[last] in [deps[last]];
      assert NamesAt(recs, deps, last, e);
    }
  }

  /** Enqueue, refused: nothing changes, and the first missing condition is the answer. */
  lemma EnqueueRefusal(c: Config, s: State, t: Task, gen: Id, now: int, s': State, reply: Reply)
    requires Inv(s) && Step(c, s, OpEnqueue(t, gen, now), s', reply) && reply != Ok
    ensures s' == s
    ensures if t.replayOf != "" then reply == Err(CarriesReplayOf)
            else if KeyTaken(s.recs, t.businessKey) then
              t.businessKey in s.chains && s.chains[t.businessKey] != []
              && var tail := s.chains[t.businessKey][|s.chains[t.businessKey]| - 1];
                 tail in s.recs && reply == Err(KeyExists(t.businessKey, tail, s.recs[tail].task.status))
            else if t.id != "" && t.id in s.recs then reply == Err(TaskExists(t.id))
            else exists i :: 0 <= i < |t.dependsOn| && t.dependsOn[i] !in s.recs
                             && (forall j :: 0 <= j < i ==> t.dependsOn[j] in s.recs)
                             && reply == Err(TaskNotFound(t.dependsOn[i]))
  {
    hide GraphInv, ChainInv, RecOk;
    KeyChain(s, t.businessKey);
    if t.replayOf == "" && !KeyTaken(s.recs, t.businessKey) && !(t.id != "" && t.id in s.recs) {
      var i := UnknownPlain(s.recs, t.dependsOn);
    }
  }

  lemma {:induction false} UnknownPlain(recs: Recs, deps: seq<Id>) returns (i: nat)
    requires FirstUnknown(recs, deps).Some?
    ensures i < |deps| && deps[i] !in recs && FirstUnknown(recs, deps) == Some(deps[i])
    ensures forall j :: 0 <= j < i ==> deps[j] in recs
  {
    var last := |deps| - 1;
    if FirstUnknown(recs, deps[..last]).Some? {
      i := UnknownPlain(recs, deps[..last]);
      assert forall j :: 0 <= j < i ==> deps[j] == deps[..last][j];
    } else {
      FirstOf(recs, deps[..last]);
      i := last;
      assert forall j :: 0 <= j < i ==> deps[j] in deps[..last];
    }
  }

  // ---- replay ----

  /** The task a replay request names: by id, or as the last execution of its key. */
  ghost predicate Names(s: State, req: ReplayRequest, x: Id) {
    x in s.recs
    && if req.executionId != "" then x == req.executionId
       else req.businessKey in s.chains && s.chains[req.businessKey] != []
            && x == s.chains[req.businessKey][|s.chains[req.businessKey]| - 1]
  }

  /** Some task already replays x. */
  ghost predicate Replayed(recs: Recs, x: Id) {
    exists y :: y in recs && recs[y].task.replayOf == x
  }

  ghost predicate OneNamed(req: ReplayRequest) {
    (req.executionId != "" && req.businessKey == "") || (req.executionId == "" && req.businessKey != "")
  }

  lemma NamesStored(s: State, req: ReplayRequest)
    requires Inv(s) && OneNamed(req)
    ensures forall x :: Names(s, req, x) <==> ReplayTarget(s, req) == Some(x)
    ensures forall x :: Names(s, req, x) ==> (Replayed(s.recs, x) <==> x in s.replayed)
  {
    hide GraphInv;
    NoEmptyId(s);
    if req.executionId == "" && HasChain(s, req.businessKey) {
      TailUnreplayed(s, req.businessKey);
    }
    forall x | Names(s, req, x) ensures Replayed(s.recs, x) <==> x in s.replayed {
      ReplayedPlain(s, x);
    }
  }

  lemma ReplayedPlain(s: State, x: Id)
    requires Inv(s) && x in s.recs
    ensures Replayed(s.recs, x) <==> x in s.replayed
  {
    hide GraphInv;
    NoEmptyId(s);
    if x in s.replayed {
      assert ReplayedOk(s, x);
      var y :| Replays(s, y, x);
    }
    if Replayed(s.recs, x) {
      var y :| y in s.recs && s.recs[y].task.replayOf == x;
      assert Listed(s, y);
    }
  }

  /** Replay succeeds exactly when the request names one stored task, which has ended, has not been replayed, and has
      not completed unless that is allowed. */
  lemma ReplayAccepts(c: Config, s: State, req: ReplayRequest, gen: Id, now: int, s': State, reply: Reply)
    requires Inv(s) && Step(c, s, OpReplay(req, gen, now), s', reply)
    ensures reply == Ok <==>
            OneNamed(req) && exists x :: Names(s, req, x) && !Open(s.recs[x].task.status) && !Replayed(s.recs, x)
                                         && (s.recs[x].task.status == Completed ==> req.allowCompleted)
    ensures reply != Ok ==> s' == s
  {
    hide Inv;
    if OneNamed(req) {
      NamesStored(s, req);
    }
  }

  /** Otherwise the first missing condition is the answer. */
  lemma ReplayRefusal(c: Config, s: State, req: ReplayRequest, gen: Id, now: int, s': State, reply: Reply)
    requires Inv(s) && Step(c, s, OpReplay(req, gen, now), s', reply)
    ensures !OneNamed(req) ==> reply == Err(BadReplayRequest)
    ensures OneNamed(req) && (forall x :: !Names(s, req, x)) ==>
              reply == if req.executionId != "" then Err(TaskNotFound(req.executionId))
                       else Err(KeyNotFound(req.businessKey))
    ensures forall x :: OneNamed(req) && Names(s, req, x) ==>
              if Open(s.recs[x].task.status) then reply == Err(ReplayNotFinal(x))
              else if Replayed(s.recs, x) then reply == Err(AlreadyReplayed(x))
              else if s.recs[x].task.status == Completed && !req.allowCompleted
              then reply == Err(CompletedNotAllowed(x))
              else reply == Ok
  {
    hide Inv;
    if OneNamed(req) {
      NamesStored(s, req);
      KnownTarget(s, req);
    }
  }

  lemma KnownTarget(s: State, req: ReplayRequest)
    requires Inv(s) && OneNamed(req)
    ensures ReplayTarget(s, req).Some? ==> ReplayTarget(s, req).value in s.recs
  {
    hide GraphInv;
    if req.executionId == "" && HasChain(s, req.businessKey) {
      TailUnreplayed(s, req.businessKey);
    }
  }

  /** A replay adds one execution: the target's work under a new id, nothing done yet, without dependencies, due at
      once; nothing else changes but the key's chain and the target's mark. */
  lemma ReplayLaw(c: Config, s: State, req: ReplayRequest, gen: Id, now: int, s': State, reply: Reply, x: Id)
    requires Inv(s) && Step(c, s, OpReplay(req, gen, now), s', reply) && reply == Ok && Names(s, req, x)
    ensures gen !in s.recs && gen in s'.recs && s'.recs == s.recs[gen := s'.recs[gen]]
    ensures var t, r := s.recs[x].task, s'.recs[gen];
            r.pendingParents == 0 && r.leaseUntil == 0 && !r.cancelRequested
            && r.task.id == gen && r.task.replayOf == x && r.task.businessKey == t.businessKey && r.task.typ == t.typ
            && r.task.queue == t.queue && r.task.maxRetry == t.maxRetry && r.task.policy == t.policy
            && r.task.payload == (if req.payload == None then t.payload
                                  else if req.payload.value == "" then None else req.payload)
            && r.task.status == Pending && r.task.result == None && r.task.lastError == NoError
            && r.task.attempts == 0 && r.task.leaseLost == 0 && r.task.throttled == 0 && r.task.dependsOn == []
            && r.task.runAt == now && r.task.createdAt == now && r.task.leaseToken == ""
            && r.task.startedAt == 0 && r.task.finishedAt == 0
    ensures s'.replayed == s.replayed + {x}
    ensures var k := s.recs[x].task.businessKey;
            if k == "" then s'.chains == s.chains
            else k in s.chains && s'.chains == s.chains[k := s.chains[k] + [gen]]
  {
    hide Inv, Names, OneNamed, ReplayTarget;
    OneOf(s, req);
    NamesStored(s, req);
    KeyListed(s, x);
  }

  lemma KeyListed(s: State, x: Id)
    requires Inv(s) && x in s.recs
    ensures s.recs[x].task.id == x && (s.recs[x].task.businessKey != "" ==> s.recs[x].task.businessKey in s.chains)
  {
    hide GraphInv;
    assert RecOk(x, s.recs[x]) && Listed(s, x);
  }

  lemma OneOf(s: State, req: ReplayRequest)
    requires ReplayError(s, req).None?
    ensures OneNamed(req)
  {}

  // ---------------------------------------------------------------------------------------------
  // Runs
  // ---------------------------------------------------------------------------------------------

  /** In every run: a blocked task that turns canceled other than by its own Cancel does not ignore dead parents and
      names one it has. */
  lemma CanceledForParent(c: Config, run: Run, n: nat, id: Id)
    requires IsRun(c, run) && n < |run.ops| && id in run.states[n].recs && id in run.states[n + 1].recs
    requires run.states[n].recs[id].task.status == Blocked && run.states[n + 1].recs[id].task.status == Canceled
    requires !(run.ops[n].OpCancel? && run.ops[n].id == id)
    ensures var r := run.states[n].recs[id];
            r.task.policy != IgnoreParentFail && HasDeadParent(run.states[n + 1].recs, r.task.dependsOn)
            && NamesDeadParent(run.states[n + 1].recs, r.task.dependsOn, run.states[n + 1].recs[id].task.lastError)
  {
    hide Inv, Step;
    InvAt(c, run, n);
    assert StepAt(c, run, n);
    var s, s', op, reply := run.states[n], run.states[n + 1], run.ops[n], run.replies[n];
    if About(op, id, s.recs[id]) {
      BlockedIdle(c, s, op, s', reply, id);
    } else {
      Bystanders(c, s, op, s', reply, id);
    }
  }

  /** In every run: how a status can change. */
  lemma StatusLaw(c: Config, run: Run, n: nat, id: Id)
    requires IsRun(c, run) && n < |run.ops| && id in run.states[n].recs
    ensures id in run.states[n + 1].recs
    ensures var to := run.states[n + 1].recs[id].task.status;
            match run.states[n].recs[id].task.status
            case Blocked => to == Blocked || to == Pending || to == Canceled
            case Pending => to == Pending || to == Running || to == Canceled
            case Running => to != Blocked
            case Retrying => to == Retrying || to == Running || to == Canceled
            case from => to == from
  {
    TransitionsLegal(c, run, n, id);
  }

  /** No call but Cancel moves a blocked task it is about. */
  lemma BlockedIdle(c: Config, s: State, op: Op, s': State, reply: Reply, id: Id)
    requires Step(c, s, op, s', reply) && id in s.recs && About(op, id, s.recs[id]) && !op.OpCancel?
    requires s.recs[id].task.status == Blocked
    ensures s' == s
  {
    hide Outcome, ReapCall;
  }

  /** Call m gave the task this run time: its submission or replay, or a failure that it survived. */
  ghost predicate SetsRunAt(run: Run, m: nat, id: Id, at: int)
    requires m < |run.ops| && |run.states| == |run.ops| + 1
  {
    id in run.states[m + 1].recs
    && match run.ops[m]
       case OpEnqueue(t, gen, now) =>
         id !in run.states[m].recs && id == (if t.id == "" then gen else t.id)
         && at == if t.runAt == 0 then now else t.runAt
       case OpReplay(_, gen, now) => id !in run.states[m].recs && id == gen && at == now
       case OpFail(x, token, _, _, when, _) =>
         x == id && HasLease(run.states[m].recs, id, token) && at == when
         && run.states[m + 1].recs[id].task.status == Retrying
       case _ => false
  }

  lemma RunAtMoves(c: Config, op: Op, id: Id, r: Rec, r': Rec)
    requires Evolves(c, op, id, r, r')
    ensures r'.task.runAt == r.task.runAt
            || (op.OpFail? && op.id == id && r.task.status == Running && op.token != "" && r.task.leaseToken == op.token
                && r'.task.status == Retrying && r'.task.runAt == op.at)
  {}

  /** Surviving a failure is always a new run time. */
  lemma FailSets(c: Config, s: State, op: Op, s': State, reply: Reply, id: Id)
    requires Inv(s) && Step(c, s, op, s', reply) && op.OpFail? && op.id == id && HasLease(s.recs, id, op.token)
    requires id in s'.recs && s'.recs[id].task.status == Retrying
    ensures s'.recs[id].task.runAt == op.at
  {
    hide Inv, Step;
    FailLaw(c, s, id, op.token, op.msg, op.kind, op.at, op.now, s', reply);
  }

  lemma BornRunAt(c: Config, run: Run, n: nat, id: Id)
    requires IsRun(c, run) && n < |run.ops| && id !in run.states[n].recs && id in run.states[n + 1].recs
    ensures SetsRunAt(run, n, id, run.states[n + 1].recs[id].task.runAt)
  {
    hide Inv, Step;
    InvAt(c, run, n);
    assert StepAt(c, run, n);
    var s, s', op, reply := run.states[n], run.states[n + 1], run.ops[n], run.replies[n];
    NewNotRunning(c, run, n, id);
    if op.OpEnqueue? {
      EnqueueLaw(c, s, op.t, op.gen, op.now, s', reply);
      if reply != Ok {
        EnqueueRefusal(c, s, op.t, op.gen, op.now, s', reply);
      }
    } else {
      ReplayAccepts(c, s, op.req, op.gen, op.now, s', reply);
      var x :| Names(s, op.req, x) && !Open(s.recs[x].task.status);
      ReplayLaw(c, s, op.req, op.gen, op.now, s', reply, x);
    }
  }

  /** A task's run time is the one given by its last submission, replay or survived failure. */
  lemma {:induction false} RunAtSource(c: Config, run: Run, n: nat, id: Id) returns (m: nat)
    requires IsRun(c, run) && n < |run.states| && id in run.states[n].recs
    ensures m < n && m < |run.ops| && SetsRunAt(run, m, id, run.states[n].recs[id].task.runAt)
    ensures forall j: nat, at: int :: m < j < n ==> !SetsRunAt(run, j, id, at)
  {
    hide IsRun, Evolves, SetsRunAt, RecOk;
    RunShape(c, run);
    if id !in run.states[n - 1].recs {
      BornRunAt(c, run, n - 1, id);
      m := n - 1;
    } else {
      RunAtStep(c, run, n - 1, id);
      if SetsRunAt(run, n - 1, id, run.states[n].recs[id].task.runAt) {
        m := n - 1;
      } else {
        m := RunAtSource(c, run, n - 1, id);
      }
    }
  }

  lemma RunShape(c: Config, run: Run)
    requires IsRun(c, run)
    ensures |run.states| == |run.ops| + 1 && |run.replies| == |run.ops| && run.states[0] == Empty
  {}

  /** In one call on a known task the run time stays, or the call is a survived failure and sets it. */
  lemma RunAtStep(c: Config, run: Run, n: nat, id: Id)
    requires IsRun(c, run) && n < |run.ops| && id in run.states[n].recs
    ensures |run.states| == |run.ops| + 1 && id in run.states[n + 1].recs
    ensures var at := run.states[n + 1].recs[id].task.runAt;
            SetsRunAt(run, n, id, at)
            || (at == run.states[n].recs[id].task.runAt && forall later: int :: !SetsRunAt(run, n, id, later))
  {
    hide Inv, Step, Evolves;
    StepFacts(c, run, n);
    InvAt(c, run, n);
    assert StepAt(c, run, n);
    var s, s', op, reply := run.states[n], run.states[n + 1], run.ops[n], run.replies[n];
    RunAtMoves(c, op, id, s.recs[id], s'.recs[id]);
    if op.OpFail? && op.id == id && HasLease(s.recs, id, op.token) && s'.recs[id].task.status == Retrying {
      FailSets(c, s, op, s', reply, id);
    }
  }

  /** No claim comes early: not before the time the task was submitted with, not before the time it was last sent back
      with. */
  lemma NeverEarly(c: Config, run: Run, i: nat, id: Id, token: Token) returns (m: nat, at: int)
    requires IsRun(c, run) && ClaimsAt(run, i, id, token)
    ensures m < i && SetsRunAt(run, m, id, at) && at <= run.ops[i].now
    ensures forall j: nat, later: int :: m < j < i ==> !SetsRunAt(run, j, id, later)
  {
    hide Inv, Step, SetsRunAt;
    assert StepAt(c, run, i);
    ClaimLaw(c, run.states[i], run.ops[i].queues, token, run.ops[i].now, Some(id), run.states[i + 1], run.replies[i]);
    m := RunAtSource(c, run, i, id);
    at := run.states[i].recs[id].task.runAt;
  }
}
