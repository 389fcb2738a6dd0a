/** The step relation leaves nothing open but the claim choice and the parent named in LastError: two brokers given the
    same calls stay in agreement for as long as they run. */
module Agreement {
  import opened Model
  import opened Deps
  import opened Cascade
  import opened Spec
  import opened Graph
  import opened Invariants
  import opened Reachable
  import opened Runs

  ghost predicate RecsAgree(a: Recs, b: Recs) {
    a.Keys == b.Keys && forall x :: x in a ==> SameButReason(a[x], b[x])
  }

  ghost predicate Agree(s: State, t: State) {
    RecsAgree(s.recs, t.recs) && s.chains == t.chains && s.replayed == t.replayed
  }

  // ---- cascades ----

  lemma DoomedAgree(a: Recs, b: Recs, roots: set<Id>)
    requires RecsAgree(a, b)
    ensures DeadRoots(a, roots) == DeadRoots(b, roots) && Doomed(a, roots) == Doomed(b, roots)
  {
    forall d: set<Id> ensures Closed(a, roots, d) <==> Closed(b, roots, d) {
      if Closed(a, roots, d) { ClosedAgree(a, b, roots, d); }
      if Closed(b, roots, d) { ClosedAgree(b, a, roots, d); }
    }
  }

  lemma ClosedAgree(a: Recs, b: Recs, roots: set<Id>, d: set<Id>)
    requires RecsAgree(a, b) && Closed(a, roots, d)
    ensures Closed(b, roots, d)
  {
    forall c, p | c in b && Doomable(b[c]) && p in Parents(b[c]) && Deadly(b, roots, d, p) ensures c in d {
      assert Doomable(a[c]) && p in Parents(a[c]) && Deadly(a, roots, d, p);
    }
  }

  lemma ToldAgree(a: Recs, b: Recs, roots: set<Id>, dead: bool, gone: bool, told: set<Id>, now: int, r: Rec, q: Rec,
                  r': Rec, q': Rec)
    requires Told(a, roots, dead, gone, told, now, r, r') && Told(b, roots, dead, gone, told, now, q, q')
             && SameButReason(r, q)
    ensures SameButReason(r', q') && (!gone && r == q ==> r' == q')
  {
    hide NamesOne;
  }

  /** Cascades from agreeing states end in agreeing states, whatever order each visits its tasks in; from one
      and the same record only a canceled task can come out different, in the parent it names. */
  lemma OutcomeAgree(a: Recs, b: Recs, roots: set<Id>, now: int, a': Recs, b': Recs)
    requires RecsAgree(a, b) && Outcome(a, roots, now, a') && Outcome(b, roots, now, b')
    ensures RecsAgree(a', b')
    ensures forall c :: c in a && c !in Doomed(a, roots) && a[c] == b[c] ==> a'[c] == b'[c]
  {
    hide Told, Doomed;
    DoomedAgree(a, b, roots);
    var gone := Doomed(a, roots);
    forall c | c in a
      ensures c in a' && c in b' && SameButReason(a'[c], b'[c]) && (c !in gone && a[c] == b[c] ==> a'[c] == b'[c])
    {
      SettledOne(a, roots, gone, now, a', c);
      SettledOne(b, roots, gone, now, b', c);
      assert Parents(a[c]) == Parents(b[c]);
      ToldAgree(a, b, roots, DeadRoots(a, roots), c in gone, Heard(a, roots, gone, c), now, a[c], b[c], a'[c], b'[c]);
    }
  }

  // ---- records ----

  lemma RecFunctionsAgree(c: Config, r: Rec, q: Rec, now: int)
    requires SameButReason(r, q)
    ensures forall result :: SameButReason(AckRec(r, result, now), AckRec(q, result, now))
    ensures forall token :: SameButReason(ClaimRec(c, r, token, now), ClaimRec(c, q, token, now))
    ensures forall why :: SameButReason(CanceledRec(r, why, now), CanceledRec(q, why, now))
    ensures SameButReason(RequeueRec(r), RequeueRec(q)) && SameButReason(ReapRec(c, r, now), ReapRec(c, q, now))
  {}

  lemma FailAgree(c: Config, r: Rec, q: Rec, msg: string, kind: FailKind, at: int, now: int)
    requires SameButReason(r, q)
    ensures SameButReason(FailRec(c, r, msg, kind, at, now), FailRec(c, q, msg, kind, at, now))
  {}

  lemma PutAgree(a: Recs, b: Recs, id: Id, r: Rec, q: Rec)
    requires RecsAgree(a, b) && SameButReason(r, q)
    ensures RecsAgree(a[id := r], b[id := q])
  {}

  lemma LeaseAgree(a: Recs, b: Recs, id: Id, token: Token)
    requires RecsAgree(a, b)
    ensures LeaseError(a, id, token) == LeaseError(b, id, token)
    ensures id in a ==> id in b && SameButReason(a[id], b[id])
  {}

  lemma FinalAgree(s: State, t: State, id: Id, r: Rec, q: Rec, now: int, s': State, r1: Reply, t': State, r2: Reply)
    requires Agree(s, t) && SameButReason(r, q) && FinalStep(s, id, r, now, s', r1) && FinalStep(t, id, q, now, t', r2)
    ensures Agree(s', t') && r1 == r2
  {
    hide Outcome, RecsAgree, SameButReason;
    PutAgree(s.recs, t.recs, id, r, q);
    OutcomeAgree(s.recs[id := r], t.recs[id := q], {id}, now, s'.recs, t'.recs);
  }

  lemma PlainAgree(s: State, t: State, id: Id, r: Rec, q: Rec, s': State, r1: Reply, t': State, r2: Reply)
    requires Agree(s, t) && SameButReason(r, q) && PlainStep(s, id, r, s', r1) && PlainStep(t, id, q, t', r2)
    ensures Agree(s', t') && r1 == r2
  {
    hide RecsAgree, SameButReason;
    PutAgree(s.recs, t.recs, id, r, q);
  }

  // ---- submissions ----

  lemma WaitingAgree(a: Recs, b: Recs, parents: set<Id>, policy: Policy)
    requires RecsAgree(a, b)
    ensures Waiting(a, parents) == Waiting(b, parents)
            && InitialStatus(a, parents, policy) == InitialStatus(b, parents, policy)
  {
    forall p | p in parents && p in a ensures p in b && StatusOf(a, p) == StatusOf(b, p) {}
    assert Waiting(a, parents) == Waiting(b, parents);
    assert AnyDead(a, parents) == AnyDead(b, parents);
  }

  lemma SubmittedAgree(a: Recs, b: Recs, t: Task, id: Id, now: int, r: Rec, q: Rec)
    requires RecsAgree(a, b) && Submitted(a, t, id, now, r) && Submitted(b, t, id, now, q)
    ensures r == q
  {
    hide InitialStatus, Waiting, RecsAgree, FirstDead;
    WaitingAgree(a, b, ParentSet(t.dependsOn), t.policy);
    FirstAgree(a, b, t.dependsOn);
  }

  lemma SubmitErrorAgree(s: State, u: State, t: Task, e: Error, f: Error)
    requires Agree(s, u) && !Submittable(s, t) && SubmitError(s, t, e) && SubmitError(u, t, f)
    ensures e == f
  {
    hide FirstUnknown, FirstDead, RecsAgree;
    KeysAgree(s.recs, u.recs);
    FirstAgree(s.recs, u.recs, t.dependsOn);
    if HasChain(s, t.businessKey) {
      LeaseAgree(s.recs, u.recs, Tail(s, t.businessKey), "");
    }
  }

  lemma {:induction false} FirstAgree(a: Recs, b: Recs, ids: seq<Id>)
    requires RecsAgree(a, b)
    ensures FirstDead(a, ids) == FirstDead(b, ids) && FirstUnknown(a, ids) == FirstUnknown(b, ids)
    ensures var p := FirstDead(a, ids); p.Some? ==>
            p.value in a && p.value in b && StatusOf(a, p.value) == StatusOf(b, p.value)
  {
    if ids != [] {
      FirstAgree(a, b, ids[..|ids| - 1]);
    }
  }

  lemma EnqueueAgree(s: State, u: State, t: Task, gen: Id, now: int, s': State, r1: Reply, u': State, r2: Reply)
    requires Agree(s, u) && EnqueueStep(s, t, gen, now, s', r1) && EnqueueStep(u, t, gen, now, u', r2)
    ensures Agree(s', u') && r1 == r2
  {
    hide Submitted, SubmitError, RecsAgree, SameButReason;
    var id := if t.id != "" then t.id else gen;
    assert Submittable(s, t) == Submittable(u, t) by { SubmittableAgree(s, u, t); }
    if Submittable(s, t) {
      SubmittedAgree(s.recs, u.recs, t, id, now, s'.recs[id], u'.recs[id]);
      PutAgree(s.recs, u.recs, id, s'.recs[id], u'.recs[id]);
    } else {
      var e :| SubmitError(s, t, e) && Refused(s, e, s', r1);
      var f :| SubmitError(u, t, f) && Refused(u, f, u', r2);
      SubmitErrorAgree(s, u, t, e, f);
    }
  }

  lemma SubmittableAgree(s: State, u: State, t: Task)
    requires Agree(s, u)
    ensures Submittable(s, t) == Submittable(u, t)
  {}

  lemma ReplayErrorAgree(s: State, t: State, req: ReplayRequest)
    requires Agree(s, t)
    ensures ReplayTarget(s, req) == ReplayTarget(t, req) && ReplayError(s, req) == ReplayError(t, req)
  {}

  lemma ReplayAgree(s: State, t: State, req: ReplayRequest, gen: Id, now: int, s': State, r1: Reply, t': State,
                    r2: Reply)
    requires Agree(s, t) && ReplayStep(s, req, gen, now, s', r1) && ReplayStep(t, req, gen, now, t', r2)
    ensures Agree(s', t') && r1 == r2
  {
    ReplayErrorAgree(s, t, req);
  }

  // ---- reaping ----

  lemma ReapedAgree(c: Config, a: Recs, b: Recs, which: set<Id>, now: int)
    requires RecsAgree(a, b)
    ensures RecsAgree(Reaped(c, a, which, now), Reaped(c, b, which, now))
            && Ended(c, a, which, now) == Ended(c, b, which, now)
  {
    hide ReapRec;
    forall x | x in a
      ensures Expired(a[x], now) == Expired(b[x], now) && SameButReason(ReapRec(c, a[x], now), ReapRec(c, b[x], now)) {
      RecFunctionsAgree(c, a[x], b[x], now);
    }
  }

  lemma ReapAgree(c: Config, s: State, t: State, now: int, skip: set<Id>, s': State, n: nat, t': State, m: nat)
    requires Agree(s, t) && ReapStep(c, s, now, skip, s', n) && ReapStep(c, t, now, skip, t', m)
    ensures Agree(s', t') && n == m
  {
    hide Outcome, Reaped, Ended, RecsAgree;
    var which := s.recs.Keys - skip;
    KeysAgree(s.recs, t.recs);
    ReapedAgree(c, s.recs, t.recs, which, now);
    ExpiredAgree(s.recs, t.recs, skip, now);
    OutcomeAgree(Reaped(c, s.recs, which, now), Reaped(c, t.recs, which, now), Ended(c, s.recs, which, now), now,
                 s'.recs, t'.recs);
  }

  lemma ReapCallAgree(c: Config, s: State, t: State, now: int, skip: set<Id>, unseen: set<Id>, s': State, t': State)
    requires Agree(s, t) && ReapCall(c, s, now, skip, unseen, s') && ReapCall(c, t, now, skip, unseen, t')
    ensures Agree(s', t')
  {
    hide ReapStep;
    var s0, t0 := s.(recs := Overlooked(s.recs, unseen, now)), t.(recs := Overlooked(t.recs, unseen, now));
    ReapAgree(c, s0, t0, now, skip, s', |ExpiredIds(s0.recs, skip, now)|, t', |ExpiredIds(t0.recs, skip, now)|);
  }

  lemma ExpiredAgree(a: Recs, b: Recs, skip: set<Id>, now: int)
    requires RecsAgree(a, b)
    ensures ExpiredIds(a, skip, now) == ExpiredIds(b, skip, now)
  {}

  // ---- steps and runs ----

  /** The same call takes agreeing states to agreeing states and gets the same answer. */
  lemma StepAgree(c: Config, s: State, t: State, op: Op, s': State, r1: Reply, t': State, r2: Reply)
    requires Agree(s, t) && Step(c, s, op, s', r1) && Step(c, t, op, t', r2)
    ensures Agree(s', t') && r1 == r2
  {
    match op {
      case OpEnqueue(sub, gen, now) => EnqueueAgree(s, t, sub, gen, now, s', r1, t', r2);
      case OpReplay(req, gen, now) => ReplayAgree(s, t, req, gen, now, s', r1, t', r2);
      case OpReap(now, skip, unseen) => ReapCallAgree(c, s, t, now, skip, unseen, s', t');
      case OpFail(id, token, msg, kind, at, now) =>
        FailStepAgree(c, s, t, id, token, msg, kind, at, now, s', r1, t', r2);
      case OpCancel(id, now) => CancelAgree(c, s, t, id, now, s', r1, t', r2);
      case _ => LeaseStepAgree(c, s, t, op, s', r1, t', r2);
    }
  }

  lemma FailStepAgree(c: Config, s: State, t: State, id: Id, token: Token, msg: string, kind: FailKind, at: int,
                      now: int, s': State, r1: Reply, t': State, r2: Reply)
    requires Agree(s, t) && FailStep(c, s, id, token, msg, kind, at, now, s', r1)
    requires FailStep(c, t, id, token, msg, kind, at, now, t', r2)
    ensures Agree(s', t') && r1 == r2
  {
    hide FailRec, Outcome, RecsAgree;
    LeaseAgree(s.recs, t.recs, id, token);
    if LeaseError(s.recs, id, token).None? {
      var r, q := FailRec(c, s.recs[id], msg, kind, at, now), FailRec(c, t.recs[id], msg, kind, at, now);
      FailAgree(c, s.recs[id], t.recs[id], msg, kind, at, now);
      if IsFinal(r.task.status) {
        FinalAgree(s, t, id, r, q, now, s', r1, t', r2);
      } else {
        PlainAgree(s, t, id, r, q, s', r1, t', r2);
      }
    }
  }

  lemma CancelAgree(c: Config, s: State, t: State, id: Id, now: int, s': State, r1: Reply, t': State, r2: Reply)
    requires Agree(s, t) && CancelStep(s, id, now, s', r1) && CancelStep(t, id, now, t', r2)
    ensures Agree(s', t') && r1 == r2
  {
    hide Outcome, RecsAgree;
    LeaseAgree(s.recs, t.recs, id, "");
    assert s.recs.Keys == t.recs.Keys by { KeysAgree(s.recs, t.recs); }
    if id in s.recs && !IsFinal(StatusOf(s.recs, id)) {
      var r, q := s.recs[id], t.recs[id];
      RecFunctionsAgree(c, r, q, now);
      if r.task.status.Running? {
        PlainAgree(s, t, id, r.(cancelRequested := true), q.(cancelRequested := true), s', r1, t', r2);
      } else {
        FinalAgree(s, t, id, CanceledRec(r, CanceledByRequest, now), CanceledRec(q, CanceledByRequest, now), now, s',
                   r1, t', r2);
      }
    }
  }

  lemma KeysAgree(a: Recs, b: Recs)
    requires RecsAgree(a, b)
    ensures a.Keys == b.Keys
  {}

  lemma LeaseStepAgree(c: Config, s: State, t: State, op: Op, s': State, r1: Reply, t': State, r2: Reply)
    requires Agree(s, t) && Step(c, s, op, s', r1) && Step(c, t, op, t', r2)
    requires op.OpClaim? || op.OpAck? || op.OpFinishCanceled? || op.OpRequeue? || op.OpHeartbeat?
    ensures Agree(s', t') && r1 == r2
  {
    hide Outcome, RecsAgree, AckRec, CanceledRec, RequeueRec, ClaimRec, ReapRec;
    match op {
      case OpClaim(queues, token, now, got) =>
        if got.Some? {
          LeaseAgree(s.recs, t.recs, got.value, token);
          RecFunctionsAgree(c, s.recs[got.value], t.recs[got.value], now);
          PutAgree(s.recs, t.recs, got.value, ClaimRec(c, s.recs[got.value], token, now),
                   ClaimRec(c, t.recs[got.value], token, now));
        }
      case OpAck(id, token, result, now) =>
        LeaseAgree(s.recs, t.recs, id, token);
        if LeaseError(s.recs, id, token).None? {
          RecFunctionsAgree(c, s.recs[id], t.recs[id], now);
          FinalAgree(s, t, id, AckRec(s.recs[id], result, now), AckRec(t.recs[id], result, now), now, s', r1, t', r2);
        }
      case OpFinishCanceled(id, token, now) =>
        LeaseAgree(s.recs, t.recs, id, token);
        if LeaseError(s.recs, id, token).None? {
          RecFunctionsAgree(c, s.recs[id], t.recs[id], now);
          FinalAgree(s, t, id, CanceledRec(s.recs[id], CanceledByRequest, now).(cancelRequested := false),
                     CanceledRec(t.recs[id], CanceledByRequest, now).(cancelRequested := false), now, s', r1, t', r2);
        }
      case OpRequeue(id, token) =>
        LeaseAgree(s.recs, t.recs, id, token);
        if LeaseError(s.recs, id, token).None? {
          RecFunctionsAgree(c, s.recs[id], t.recs[id], 0);
          PlainAgree(s, t, id, RequeueRec(s.recs[id]), RequeueRec(t.recs[id]), s', r1, t', r2);
        }
      case OpHeartbeat(id, token, now) =>
        LeaseAgree(s.recs, t.recs, id, token);
        if LeaseError(s.recs, id, token).None? {
          var r, q := s.recs[id], t.recs[id];
          PutAgree(s.recs, t.recs, id, r.(leaseUntil := now + TtlFor(c, r.task.queue)),
                   q.(leaseUntil := now + TtlFor(c, q.task.queue)));
        }
      case _ =>
    }
  }

  /** Two brokers given the same calls, the same clock readings and ids, and making the same claim choices: after every
      call their states differ at most in which dead parent a canceled task names, and their answers are the same. */
  lemma {:induction false} RunsAgree(c: Config, a: Run, b: Run, n: nat)
    requires IsRun(c, a) && IsRun(c, b) && a.ops == b.ops && n < |a.states|
    ensures Agree(a.states[n], b.states[n])
    ensures n > 0 ==> a.replies[n - 1] == b.replies[n - 1]
  {
    hide Step, Agree;
    if n == 0 {
      assert Agree(Empty, Empty) by { EmptyAgrees(); }
    } else {
      RunsAgree(c, a, b, n - 1);
      assert StepAt(c, a, n - 1) && StepAt(c, b, n - 1);
      StepAgree(c, a.states[n - 1], b.states[n - 1], a.ops[n - 1], a.states[n], a.replies[n - 1], b.states[n],
                b.replies[n - 1]);
    }
  }

  lemma EmptyAgrees()
    ensures Agree(Empty, Empty)
  {}
}
