/** Safety over whole runs: any sequence of calls with any clock values, from the empty broker. */
module Runs {
  import opened Model
  import opened Cascade
  import opened Spec
  import opened Graph
  import opened Invariants
  import opened Reachable

  datatype Run = Run(states: seq<State>, ops: seq<Op>, replies: seq<Reply>)

  ghost predicate StepAt(c: Config, run: Run, i: nat)
    requires i < |run.ops| && |run.states| == |run.ops| + 1 && |run.replies| == |run.ops|
  {
    Step(c, run.states[i], run.ops[i], run.states[i + 1], run.replies[i])
  }

  /** Every claim draws a token never drawn before. */
  ghost predicate FreshTokens(ops: seq<Op>) {
    forall i, j :: 0 <= i < j < |ops| && ops[i].OpClaim? && ops[j].OpClaim? ==> ops[i].token != ops[j].token
  }

  ghost predicate IsRun(c: Config, run: Run) {
    |run.states| == |run.ops| + 1 && |run.replies| == |run.ops| && run.states[0] == Empty
    && (forall i :: 0 <= i < |run.ops| ==> StepAt(c, run, i)) && FreshTokens(run.ops)
  }

  lemma {:induction false} InvAt(c: Config, run: Run, n: nat)
    requires IsRun(c, run) && n < |run.states|
    ensures Inv(run.states[n])
  {
    hide Step, Inv;
    if n == 0 {
      InvStart();
    } else {
      InvAt(c, run, n - 1);
      assert StepAt(c, run, n - 1);
      StepInv(c, run.states[n - 1], run.ops[n - 1], run.states[n], run.replies[n - 1]);
    }
  }

  /** The step at n in terms of records. */
  lemma StepFacts(c: Config, run: Run, n: nat)
    requires IsRun(c, run) && n < |run.ops|
    ensures run.states[n].recs.Keys <= run.states[n + 1].recs.Keys
    ensures forall x :: x in run.states[n].recs ==>
              RecOk(x, run.states[n].recs[x])
              && Evolves(c, run.ops[n], x, run.states[n].recs[x], run.states[n + 1].recs[x])
  {
    hide Step, Evolves, GraphInv, ChainInv, RecOk;
    InvAt(c, run, n);
    assert StepAt(c, run, n);
    StepEvolves(c, run.states[n], run.ops[n], run.states[n + 1], run.replies[n]);
  }

  lemma {:induction false} KeysGrow(c: Config, run: Run, i: nat, j: nat)
    requires IsRun(c, run) && i <= j < |run.states|
    ensures run.states[i].recs.Keys <= run.states[j].recs.Keys
  {
    if i < j {
      KeysGrow(c, run, i, j - 1);
      StepFacts(c, run, j - 1);
    }
  }

  /** No step ever changes a task that has become final; no step at all changes a task's identity. */
  lemma {:induction false} FinalFrozen(c: Config, run: Run, i: nat, j: nat, id: Id)
    requires IsRun(c, run) && i <= j < |run.states| && id in run.states[i].recs
    ensures id in run.states[j].recs && SameIdentity(run.states[i].recs[id].task, run.states[j].recs[id].task)
    ensures IsFinal(StatusOf(run.states[i].recs, id)) ==> run.states[j].recs[id] == run.states[i].recs[id]
  {
    hide Evolves, RecOk;
    if i < j {
      FinalFrozen(c, run, i, j - 1, id);
      StepFacts(c, run, j - 1);
      EvolvesKeeps(c, run.ops[j - 1], id, run.states[j - 1].recs[id], run.states[j].recs[id]);
    }
  }

  // ---- the transition table ----

  lemma OwnLegal(c: Config, op: Op, id: Id, r: Rec, r': Rec)
    requires Own(c, op, id, r, r')
    ensures r'.task.status == r.task.status || CanTransition(r.task.status, r'.task.status)
  {}

  /** Every status change in every run is one the transition table allows. */
  lemma TransitionsLegal(c: Config, run: Run, n: nat, id: Id)
    requires IsRun(c, run) && n < |run.ops| && id in run.states[n].recs
    ensures id in run.states[n + 1].recs
    ensures var from, to := StatusOf(run.states[n].recs, id), StatusOf(run.states[n + 1].recs, id);
            from == to || CanTransition(from, to)
  {
    hide Own, RecOk;
    StepFacts(c, run, n);
    var r, r' := run.states[n].recs[id], run.states[n + 1].recs[id];
    if Own(c, run.ops[n], id, r, r') {
      OwnLegal(c, run.ops[n], id, r, r');
    }
  }

  // ---- dependencies ----

  /** What a task's status says about one of its parents. */
  ghost predicate ParentFits(recs: Recs, r: Rec, p: Id) {
    p in recs
    && (!r.task.status.Blocked? ==> IsFinal(StatusOf(recs, p)))
    && (!r.task.policy.IgnoreParentFail? ==> !Dead(StatusOf(recs, p)))
    && (!r.task.status.Blocked? && !r.task.policy.IgnoreParentFail? ==> StatusOf(recs, p).Completed?)
  }

  /** No task runs ahead of its parents: anything past blocked and not canceled has only final parents, all of them
      completed under fail-fast; a blocked task waits for exactly the parents its count says, at least one. */
  ghost predicate NotAhead(recs: Recs, id: Id)
    requires id in recs
  {
    var r := recs[id];
    (r.task.status.Blocked? ==> r.pendingParents == |Waiting(recs, Parents(r))| >= 1)
    && (!r.task.status.Canceled? ==> forall p :: p in Parents(r) ==> ParentFits(recs, r, p))
  }

  lemma NeverAhead(c: Config, run: Run, n: nat, id: Id)
    requires IsRun(c, run) && n < |run.states| && id in run.states[n].recs
    ensures NotAhead(run.states[n].recs, id)
  {
    InvAt(c, run, n);
    AheadInv(run.states[n].recs, id);
  }

  lemma AheadInv(recs: Recs, id: Id)
    requires GraphInv(recs) && id in recs
    ensures NotAhead(recs, id)
  {
    var r := recs[id];
    assert NodeOk(recs, id);
    var w := Waiting(recs, Parents(r));
    assert w != {} ==> |w| > 0;
    forall p | p in Parents(r) && !r.task.status.Canceled? ensures ParentFits(recs, r, p) {
      assert !r.task.status.Blocked? ==> p !in w;
    }
  }

  // ---- leases ----

  ghost predicate ClaimsAt(run: Run, i: nat, id: Id, token: Token) {
    i < |run.ops| && run.ops[i].OpClaim? && run.ops[i].got == Some(id) && run.ops[i].token == token
  }

  ghost predicate HeldAt(run: Run, j: nat, id: Id, token: Token) {
    j < |run.states| && id in run.states[j].recs && Holds(run.states[j].recs[id], token)
  }

  /** A task is running exactly when it has a token. */
  lemma RunningIffToken(c: Config, run: Run, n: nat, id: Id)
    requires IsRun(c, run) && n < |run.states| && id in run.states[n].recs
    ensures var t := run.states[n].recs[id].task; t.status.Running? <==> t.leaseToken != ""
  {
    hide GraphInv, ChainInv, Step;
    InvAt(c, run, n);
    assert RecOk(id, run.states[n].recs[id]);
  }

  /** A lease can only come from a claim. */
  lemma TokenSource(c: Config, op: Op, id: Id, r: Rec, r': Rec, token: Token)
    requires Evolves(c, op, id, r, r') && Holds(r', token)
    ensures Holds(r, token) || (op.OpClaim? && op.got == Some(id) && op.token == token)
  {}

  lemma NewNotRunning(c: Config, run: Run, n: nat, id: Id)
    requires IsRun(c, run) && n < |run.ops| && id in run.states[n + 1].recs && id !in run.states[n].recs
    ensures !run.states[n + 1].recs[id].task.status.Running? && !run.states[n + 1].recs[id].cancelRequested
    ensures Parents(run.states[n + 1].recs[id]) <= run.states[n].recs.Keys
    ensures run.ops[n].OpEnqueue? || run.ops[n].OpReplay?
  {
    hide Doomed;
    assert StepAt(c, run, n);
    if run.ops[n].OpEnqueue? {
      InitialPolicy(run.states[n].recs, ParentSet(run.ops[n].t.dependsOn), run.ops[n].t.policy);
    }
  }

  /** Whoever holds a lease got it from a claim with that token and has held it ever since. */
  lemma {:induction false} HeldSince(c: Config, run: Run, n: nat, id: Id, token: Token) returns (i: nat)
    requires IsRun(c, run) && HeldAt(run, n, id, token)
    ensures i < n && ClaimsAt(run, i, id, token)
    ensures forall j :: i < j <= n ==> HeldAt(run, j, id, token)
  {
    hide Evolves, RecOk;
    var s := run.states[n - 1];
    if id !in s.recs {
      NewNotRunning(c, run, n - 1, id);
    }
    StepFacts(c, run, n - 1);
    TokenSource(c, run.ops[n - 1], id, s.recs[id], run.states[n].recs[id], token);
    if Holds(s.recs[id], token) {
      i := HeldSince(c, run, n - 1, id, token);
    } else {
      i := n - 1;
    }
  }

  /** A token is only ever held by the task it was drawn for, without a gap since the claim. */
  lemma OnlyClaimant(c: Config, run: Run, i: nat, id: Id, token: Token, k: nat, x: Id)
    requires IsRun(c, run) && ClaimsAt(run, i, id, token) && i < k && HeldAt(run, k, x, token)
    ensures x == id && forall j :: i < j <= k ==> HeldAt(run, j, id, token)
  {
    var i' := HeldSince(c, run, k, x, token);
    assert i' == i;
  }

  /** Once the claim at i has lost its lease, nobody ever holds its token again. */
  lemma TokenGone(c: Config, run: Run, i: nat, id: Id, token: Token, j: nat, k: nat, x: Id)
    requires IsRun(c, run) && ClaimsAt(run, i, id, token) && i < j <= k < |run.states|
    requires !HeldAt(run, j, id, token)
    ensures !HeldAt(run, k, x, token)
  {
    if HeldAt(run, k, x, token) {
      OnlyClaimant(c, run, i, id, token, k, x);
    }
  }

  function TokenCall(op: Op): Option<(Id, Token)> {
    match op
    case OpAck(id, token, _, _) => Some((id, token))
    case OpFail(id, token, _, _, _, _) => Some((id, token))
    case OpFinishCanceled(id, token, _) => Some((id, token))
    case OpRequeue(id, token) => Some((id, token))
    case OpHeartbeat(id, token, _) => Some((id, token))
    case _ => None
  }

  /** Lease fencing: after a claim has ended, all five token operations with its token fail and change nothing. */
  lemma Fenced(c: Config, run: Run, i: nat, id: Id, token: Token, j: nat, k: nat)
    requires IsRun(c, run) && ClaimsAt(run, i, id, token) && i < j <= k < |run.ops|
    requires !HeldAt(run, j, id, token)
    requires TokenCall(run.ops[k]).Some? && TokenCall(run.ops[k]).value.1 == token
    ensures run.replies[k].Err? && run.states[k + 1] == run.states[k]
  {
    hide Doomed;
    TokenGone(c, run, i, id, token, j, k, TokenCall(run.ops[k]).value.0);
    assert StepAt(c, run, k);
  }

  /** A stored result was written by an Ack whose caller held the lease, from its claim up to that Ack. */
  lemma ResultFromHolder(c: Config, run: Run, k: nat, id: Id) returns (i: nat)
    requires IsRun(c, run) && k < |run.ops| && id in run.states[k].recs && id in run.states[k + 1].recs
    requires run.states[k + 1].recs[id].task.result != run.states[k].recs[id].task.result
    ensures run.ops[k].OpAck? && run.ops[k].id == id
            && run.states[k + 1].recs[id].task.result == Kept(run.ops[k].result)
    ensures i < k && ClaimsAt(run, i, id, run.ops[k].token)
    ensures forall j :: i < j <= k ==> HeldAt(run, j, id, run.ops[k].token)
  {
    StepFacts(c, run, k);
    i := HeldSince(c, run, k, id, run.ops[k].token);
  }

  // ---- cancellation ----

  ghost predicate RequeuedAt(run: Run, i: nat, id: Id) {
    i < |run.ops| && i < |run.replies| && run.ops[i].OpRequeue? && run.ops[i].id == id && run.replies[i] == Ok
  }

  predicate CancelStands(r: Rec) {
    IsFinal(r.task.status) || ((r.task.status.Running? || r.task.status.Retrying?) && r.cancelRequested)
  }

  /** The reap returns the lease to the queue without having seen its mark. */
  predicate Forgets(c: Config, op: Op, id: Id, r: Rec) {
    op.OpReap? && id !in op.skip && id in op.unseen && Expired(r, op.now) && r.task.leaseLost + 1 < c.leaseLostMax
  }

  ghost predicate ForgottenAt(c: Config, run: Run, i: nat, id: Id) {
    i < |run.ops| && i < |run.states| && id in run.states[i].recs && Forgets(c, run.ops[i], id, run.states[i].recs[id])
  }

  /** No reap of the run overlooks a mark: the runs of the reference and of the scripts. */
  ghost predicate Attentive(run: Run) {
    forall i :: 0 <= i < |run.ops| && run.ops[i].OpReap? ==> run.ops[i].unseen == {}
  }

  lemma CancelEvolves(c: Config, op: Op, id: Id, r: Rec, r': Rec)
    requires Evolves(c, op, id, r, r') && CancelStands(r)
    requires !(op.OpRequeue? && op.id == id && Holds(r, op.token)) && !Forgets(c, op, id, r)
    ensures CancelStands(r')
  {}

  lemma CancelDropped(c: Config, op: Op, id: Id, r: Rec, r': Rec)
    requires Own(c, op, id, r, r') && (op.OpRequeue? || Forgets(c, op, id, r))
    ensures !CancelStands(r')
  {}

  /** A cancel that stands is lost in one call exactly when the holder requeues the task or a reap forgets the mark. */
  lemma CancelExactly(c: Config, s: State, op: Op, s': State, reply: Reply, id: Id)
    requires Inv(s) && Step(c, s, op, s', reply) && id in s.recs && CancelStands(s.recs[id])
    ensures id in s'.recs
    ensures CancelStands(s'.recs[id]) <==>
            !(op.OpRequeue? && op.id == id && Holds(s.recs[id], op.token)) && !Forgets(c, op, id, s.recs[id])
  {
    hide Step, Own, CascadeMove, GraphInv, ChainInv, RecOk, CancelStands;
    StepEvolves(c, s, op, s', reply);
    OwnStep(c, s, op, s', reply, id);
    if (op.OpRequeue? && op.id == id && Holds(s.recs[id], op.token)) || Forgets(c, op, id, s.recs[id]) {
      CancelDropped(c, op, id, s.recs[id], s'.recs[id]);
    } else {
      CancelEvolves(c, op, id, s.recs[id], s'.recs[id]);
    }
  }

  /** An accepted cancel is never lost: until that task is requeued it is final, or running or retrying with the mark,
      across failures, new claims and expired leases - as long as no reap forgets the mark, which an attentive run never
      does. */
  lemma {:induction false} CancelNeverLost(c: Config, run: Run, i: nat, id: Id, j: nat)
    requires IsRun(c, run) && i < j < |run.states|
    requires run.ops[i].OpCancel? && run.ops[i].id == id && run.replies[i] == Ok
    requires forall k :: i < k < j ==> !RequeuedAt(run, k, id) && !ForgottenAt(c, run, k, id)
    ensures id in run.states[j].recs && CancelStands(run.states[j].recs[id])
  {
    hide Evolves, RecOk, Doomed;
    var s := run.states[j - 1];
    assert StepAt(c, run, j - 1);
    if j == i + 1 {
      CancelAccepted(c, run, i, id);
    } else {
      CancelNeverLost(c, run, i, id, j - 1);
      StepFacts(c, run, j - 1);
      assert !RequeuedAt(run, j - 1, id) && !ForgottenAt(c, run, j - 1, id);
      CancelEvolves(c, run.ops[j - 1], id, s.recs[id], run.states[j].recs[id]);
    }
  }

  lemma AttentiveForgetsNone(c: Config, run: Run, k: nat, id: Id)
    requires Attentive(run)
    ensures !ForgottenAt(c, run, k, id)
  {}

  lemma CancelAccepted(c: Config, run: Run, i: nat, id: Id)
    requires IsRun(c, run) && i < |run.ops| && run.ops[i].OpCancel? && run.ops[i].id == id && run.replies[i] == Ok
    ensures id in run.states[i + 1].recs && CancelStands(run.states[i + 1].recs[id])
  {
    hide Doomed, Inv, CancelStands;
    assert StepAt(c, run, i);
    InvAt(c, run, i);
    CancelTaken(c, run.states[i], id, run.ops[i].now, run.states[i + 1], Ok);
  }

  /** A cancel of a task that is not final is accepted and stands. */
  lemma CancelTaken(c: Config, s: State, id: Id, now: int, s': State, reply: Reply)
    requires Inv(s) && Step(c, s, OpCancel(id, now), s', reply) && id in s.recs && !IsFinal(StatusOf(s.recs, id))
    ensures id in s'.recs && CancelStands(s'.recs[id])
  {
    hide Doomed;
    if !StatusOf(s.recs, id).Running? {
      FinalEffects(s, id, CanceledRec(s.recs[id], CanceledByRequest, now), now, s', Ok);
    }
  }

  // ---- claims are conserved ----

  function B(b: bool): nat { if b then 1 else 0 }

  function Claims(run: Run, n: nat, id: Id): nat
    requires n <= |run.ops|
  {
    if n == 0 then 0
    else Claims(run, n - 1, id) + B(run.ops[n - 1].OpClaim? && run.ops[n - 1].got == Some(id))
  }

  ghost function Requeues(run: Run, n: nat, id: Id): nat
    requires n <= |run.ops|
  {
    if n == 0 then 0 else Requeues(run, n - 1, id) + B(RequeuedAt(run, n - 1, id))
  }

  /** The step ends a claim of id without moving a counter: an ack, a finished cancel, a skip, or the reaping of a
      lease whose cancel was requested. */
  predicate FreeEnd(op: Op, id: Id, r: Rec) {
    match op
    case OpAck(x, token, _, _) => x == id && Holds(r, token)
    case OpFinishCanceled(x, token, _) => x == id && Holds(r, token)
    case OpFail(x, token, _, kind, _, _) => x == id && Holds(r, token) && kind.FailSkip?
    case OpReap(now, skip, unseen) => id !in skip && Expired(r, now) && r.cancelRequested && id !in unseen
    case _ => false
  }

  function FreeEnds(run: Run, n: nat, id: Id): nat
    requires n <= |run.ops| && |run.states| == |run.ops| + 1
  {
    if n == 0 then 0
    else FreeEnds(run, n - 1, id)
         + B(id in run.states[n - 1].recs && FreeEnd(run.ops[n - 1], id, run.states[n - 1].recs[id]))
  }

  function Counters(t: Task): int {
    t.attempts + t.throttled + t.leaseLost
  }

  /** Each unfinished counter is below its cap; all counters together never exceed the caps. */
  predicate Capped(c: Config, r: Rec, freeEnds: nat) {
    var t := r.task;
    if IsFinal(t.status)
    then freeEnds <= 1 && Counters(t) + freeEnds <= t.maxRetry + c.throttledMax + c.leaseLostMax - 1
    else freeEnds == 0 && t.attempts <= t.maxRetry && t.throttled <= c.throttledMax - 1
         && t.leaseLost <= c.leaseLostMax - 1
  }

  /** What one step does to the books of one task. */
  lemma BooksEvolve(c: Config, op: Op, id: Id, r: Rec, r': Rec, freeEnds: nat)
    requires Evolves(c, op, id, r, r') && RecOk(id, r)
    requires op.OpClaim? && op.got == Some(id) ==> Own(c, op, id, r, r')
    requires TokenCall(op).Some? && TokenCall(op).value.0 == id && Holds(r, TokenCall(op).value.1) ==>
             Own(c, op, id, r, r')
    requires op.OpReap? && id !in op.skip && Expired(r, op.now) ==> Own(c, op, id, r, r')
    requires Capped(c, r, freeEnds)
    ensures Counters(r'.task) + B(FreeEnd(op, id, r)) + B(r'.task.status.Running?)
            + B(op.OpRequeue? && op.id == id && Holds(r, op.token))
            == Counters(r.task) + B(r.task.status.Running?) + B(op.OpClaim? && op.got == Some(id))
    ensures Capped(c, r', freeEnds + B(FreeEnd(op, id, r)))
  {
    assert r'.task.maxRetry == r.task.maxRetry;
  }

  /** The operation's own effect does happen when its guard holds. */
  lemma OwnHappens(c: Config, run: Run, n: nat, id: Id)
    requires IsRun(c, run) && n < |run.ops| && id in run.states[n].recs
    ensures id in run.states[n + 1].recs
    ensures var op, r, r' := run.ops[n], run.states[n].recs[id], run.states[n + 1].recs[id];
            (op.OpClaim? && op.got == Some(id) ==> Own(c, op, id, r, r'))
            && (TokenCall(op).Some? && TokenCall(op).value.0 == id && Holds(r, TokenCall(op).value.1) ==>
                Own(c, op, id, r, r'))
            && (op.OpReap? && id !in op.skip && Expired(r, op.now) ==> Own(c, op, id, r, r'))
            && (RequeuedAt(run, n, id) <==> op.OpRequeue? && op.id == id && Holds(r, op.token))
  {
    hide Doomed, Evolves, FailRec, ReapRec, AckRec, CanceledRec, RequeueRec;
    StepFacts(c, run, n);
    assert StepAt(c, run, n);
    InvAt(c, run, n);
    OwnStep(c, run.states[n], run.ops[n], run.states[n + 1], run.replies[n], id);
  }

  lemma OwnStep(c: Config, s: State, op: Op, s': State, reply: Reply, id: Id)
    requires Inv(s) && Step(c, s, op, s', reply) && id in s.recs && id in s'.recs
    ensures op.OpClaim? && op.got == Some(id) ==> Own(c, op, id, s.recs[id], s'.recs[id])
    ensures TokenCall(op).Some? && TokenCall(op).value.0 == id && Holds(s.recs[id], TokenCall(op).value.1)
            ==> Own(c, op, id, s.recs[id], s'.recs[id])
    ensures op.OpReap? && id !in op.skip && Expired(s.recs[id], op.now) ==> Own(c, op, id, s.recs[id], s'.recs[id])
    ensures op.OpRequeue? && op.id == id ==> (reply == Ok <==> Holds(s.recs[id], op.token))
  {
    hide Step, Inv, Own;
    if op.OpAck? || op.OpFail? || op.OpFinishCanceled? {
      OwnEnd(c, s, op, s', reply, id);
    } else if op.OpReap? {
      OwnReap(c, s, op, s', reply, id);
    } else if op.OpClaim? || op.OpRequeue? || op.OpHeartbeat? {
      OwnPlain(c, s, op, s', reply, id);
    }
  }

  lemma OwnReap(c: Config, s: State, op: Op, s': State, reply: Reply, id: Id)
    requires Inv(s) && Step(c, s, op, s', reply) && id in s.recs && id in s'.recs && op.OpReap?
    ensures id !in op.skip && Expired(s.recs[id], op.now) ==> Own(c, op, id, s.recs[id], s'.recs[id])
  {
    hide GraphInv, ChainInv, ReapCall, ReapRec, CascadeMove;
    ReapCallEffects(c, s, op.now, op.skip, op.unseen, s');
  }

  lemma OwnPlain(c: Config, s: State, op: Op, s': State, reply: Reply, id: Id)
    requires Step(c, s, op, s', reply) && id in s.recs && id in s'.recs
    requires op.OpClaim? || op.OpRequeue? || op.OpHeartbeat?
    ensures (if op.OpClaim? then op.got == Some(id) else op.id == id && Holds(s.recs[id], op.token)) ==>
            Own(c, op, id, s.recs[id], s'.recs[id])
    ensures op.OpRequeue? && op.id == id ==> (reply == Ok <==> Holds(s.recs[id], op.token))
  {
    hide RequeueRec, ClaimRec;
  }

  lemma OwnEnd(c: Config, s: State, op: Op, s': State, reply: Reply, id: Id)
    requires Inv(s) && Step(c, s, op, s', reply) && id in s.recs && id in s'.recs
    requires op.OpAck? || op.OpFail? || op.OpFinishCanceled?
    ensures op.id == id && Holds(s.recs[id], op.token) ==> Own(c, op, id, s.recs[id], s'.recs[id])
  {
    hide GraphInv, ChainInv, Outcome, FailRec, AckRec, CanceledRec, CascadeMove;
    match op
    case OpAck(x, token, result, now) =>
      if x == id && Holds(s.recs[id], token) {
        AckEnds(s.recs[id], result, now);
        FinalEffects(s, id, AckRec(s.recs[id], result, now), now, s', reply);
      }
    case OpFail(x, token, msg, kind, at, now) =>
      if x == id && Holds(s.recs[id], token) {
        var r := FailRec(c, s.recs[id], msg, kind, at, now);
        FailShape(c, s.recs[id], msg, kind, at, now);
        if IsFinal(r.task.status) { FinalEffects(s, id, r, now, s', reply); }
      }
    case OpFinishCanceled(x, token, now) =>
      if x == id && Holds(s.recs[id], token) {
        CancelEnds(s.recs[id], CanceledByRequest, now);
        FinalEffects(s, id, CanceledRec(s.recs[id], CanceledByRequest, now).(cancelRequested := false), now, s', reply);
      }
    case _ =>
  }

  lemma AckEnds(r: Rec, result: Option<Bytes>, now: int)
    requires !IsFinal(r.task.status) && !r.task.status.Blocked?
    ensures LegalEnd(r, AckRec(r, result, now))
  {}

  lemma CancelEnds(r: Rec, why: ErrText, now: int)
    requires !IsFinal(r.task.status)
    ensures LegalEnd(r, CanceledRec(r, why, now).(cancelRequested := false))
  {}

  /** The task appeared in step b with zero counters and a non-negative retry budget. */
  ghost predicate BornClean(c: Config, run: Run, b: nat, id: Id) {
    b < |run.ops| && b + 1 < |run.states| && id !in run.states[b].recs && id in run.states[b + 1].recs
    && var t := run.states[b + 1].recs[id].task;
       t.attempts == 0 && t.throttled == 0 && t.leaseLost == 0 && t.maxRetry >= 0
  }

  lemma {:induction false} UnbornUnclaimed(c: Config, run: Run, b: nat, n: nat, id: Id)
    requires IsRun(c, run) && n <= b < |run.ops| && id !in run.states[b].recs
    ensures Claims(run, n, id) == 0 && Requeues(run, n, id) == 0 && FreeEnds(run, n, id) == 0
  {
    hide Doomed;
    if n > 0 {
      UnbornUnclaimed(c, run, b, n - 1, id);
      KeysGrow(c, run, n - 1, b);
      assert StepAt(c, run, n - 1);
    }
  }

  /** Every claim is accounted for: a counter moved, it was requeued, it is running, or - for one claim at most - it
      ended the task without a counter. */
  lemma {:induction false} ClaimsConserved(c: Config, run: Run, b: nat, n: nat, id: Id)
    requires IsRun(c, run) && BornClean(c, run, b, id) && b < n < |run.states|
    requires c.throttledMax > 0 && c.leaseLostMax > 0
    ensures id in run.states[n].recs
    ensures var r := run.states[n].recs[id];
            Claims(run, n, id) == Counters(r.task) + Requeues(run, n, id) + FreeEnds(run, n, id)
                                  + B(r.task.status.Running?)
            && Capped(c, r, FreeEnds(run, n, id))
    ensures FreeEnds(run, n, id) <= 1
    decreases n
  {
    hide Evolves, RecOk, Doomed, Own, FreeEnd;
    if n == b + 1 {
      UnbornUnclaimed(c, run, b, b, id);
      NewNotRunning(c, run, b, id);
      assert !RequeuedAt(run, b, id);
    } else {
      ClaimsConserved(c, run, b, n - 1, id);
      StepFacts(c, run, n - 1);
      OwnHappens(c, run, n - 1, id);
      BooksEvolve(c, run.ops[n - 1], id, run.states[n - 1].recs[id], run.states[n].recs[id], FreeEnds(run, n - 1, id));
    }
  }

  /** Claims that were not given back never exceed what the three caps allow. */
  lemma ClaimsBounded(c: Config, run: Run, b: nat, n: nat, id: Id)
    requires IsRun(c, run) && BornClean(c, run, b, id) && b < n < |run.states|
    requires c.throttledMax > 0 && c.leaseLostMax > 0
    ensures id in run.states[n].recs
    ensures Claims(run, n, id) - Requeues(run, n, id)
            <= run.states[n].recs[id].task.maxRetry + c.throttledMax + c.leaseLostMax - 1
  {
    ClaimsConserved(c, run, b, n, id);
  }

  // ---- replay chains ----

  /** A key's chain lists exactly that key's executions, each replaying the one before; all but the tail are final and
      replayed, so at most the tail is unfinished, and the tail has not been replayed. */
  ghost predicate NoFork(s: State, k: Key)
    requires k in s.chains
  {
    var ch := s.chains[k];
    ch != [] && NoDup(ch) && (forall x :: x in ch <==> x in s.recs && s.recs[x].task.businessKey == k)
    && (forall i :: 0 <= i < |ch| ==> ForkFree(s, ch, i))
  }

  ghost predicate ForkFree(s: State, ch: seq<Id>, i: nat)
    requires i < |ch|
  {
    ch[i] in s.recs
    && s.recs[ch[i]].task.replayOf == (if i == 0 then "" else ch[i - 1])
    && (i < |ch| - 1 ==> ch[i] in s.replayed && IsFinal(StatusOf(s.recs, ch[i])))
    && (i == |ch| - 1 ==> ch[i] !in s.replayed)
  }

  lemma ChainsNeverFork(c: Config, run: Run, n: nat, k: Key)
    requires IsRun(c, run) && n < |run.states| && k in run.states[n].chains
    ensures NoFork(run.states[n], k)
  {
    hide GraphInv, RecOk, Step;
    var s := run.states[n];
    InvAt(c, run, n);
    assert ChainOk(s, k);
    ChainMembers(s, k);
    forall i: nat | i < |s.chains[k]| ensures ForkFree(s, s.chains[k], i) {
      LinkForkFree(s, k, i);
    }
  }

  lemma LinkForkFree(s: State, k: Key, i: nat)
    requires Inv(s) && k in s.chains && i < |s.chains[k]|
    ensures ForkFree(s, s.chains[k], i)
  {
    hide GraphInv;
    NoEmptyId(s);
    assert ChainOk(s, k) && LinkOk(s, k, s.chains[k], i);
    if i < |s.chains[k]| - 1 {
      NonTailReplayed(s, k, i);
    } else {
      TailUnreplayed(s, k);
    }
  }

  lemma ChainMembers(s: State, k: Key)
    requires ChainInv(s) && k in s.chains
    ensures forall x :: x in s.chains[k] <==> x in s.recs && s.recs[x].task.businessKey == k
  {
    assert ChainOk(s, k);
    forall x ensures x in s.chains[k] <==> x in s.recs && s.recs[x].task.businessKey == k {
      if x in s.chains[k] {
        var i :| 0 <= i < |s.chains[k]| && s.chains[k][i] == x;
        assert LinkOk(s, k, s.chains[k], i);
      } else if x in s.recs {
        assert Listed(s, x);
      }
    }
  }

  /** With or without a key, an execution is replayed at most once, and only after it is final. */
  lemma ReplayedOnce(c: Config, run: Run, n: nat, x1: Id, x2: Id)
    requires IsRun(c, run) && n < |run.states| && x1 in run.states[n].recs && x2 in run.states[n].recs
    requires run.states[n].recs[x1].task.replayOf == run.states[n].recs[x2].task.replayOf != ""
    ensures x1 == x2
    ensures var s := run.states[n]; var y := s.recs[x1].task.replayOf;
            y in s.recs && y in s.replayed && IsFinal(StatusOf(s.recs, y))
  {
    InvAt(c, run, n);
    var s := run.states[n];
    var y := s.recs[x1].task.replayOf;
    assert Replays(s, x1, y) && Replays(s, x2, y);
    assert Listed(s, x1) && ReplayedOk(s, y);
  }

  // ---- progress ----

  /** Step m brought the task into the broker. */
  ghost predicate BornAt(run: Run, m: nat, id: Id) {
    m + 1 < |run.states| && id !in run.states[m].recs && id in run.states[m + 1].recs
  }

  lemma {:induction false} Birth(c: Config, run: Run, n: nat, id: Id) returns (m: nat)
    requires IsRun(c, run) && n < |run.states| && id in run.states[n].recs
    ensures m < n && BornAt(run, m, id)
  {
    if id in run.states[n - 1].recs {
      m := Birth(c, run, n - 1, id);
    } else {
      m := n - 1;
    }
  }

  /** Each task on the path is a parent of the one before it. */
  ghost predicate Lineage(recs: Recs, path: seq<Id>) {
    path != [] && (forall i :: 0 <= i < |path| ==> path[i] in recs)
    && forall i :: 0 <= i < |path| - 1 ==> path[i + 1] in Parents(recs[path[i]])
  }

  /** Dependencies never deadlock: up the line from every blocked task, past blocked ones only, there is an
      ancestor that is queued or running. */
  lemma {:induction false} NeverDeadlocked(c: Config, run: Run, n: nat, id: Id) returns (path: seq<Id>)
    requires IsRun(c, run) && n < |run.states| && id in run.states[n].recs && StatusOf(run.states[n].recs, id).Blocked?
    ensures Lineage(run.states[n].recs, path) && path[0] == id
            && Unblocked(StatusOf(run.states[n].recs, path[|path| - 1]))
    ensures forall i :: 0 <= i < |path| - 1 ==> StatusOf(run.states[n].recs, path[i]).Blocked?
  {
    var m := Birth(c, run, n, id);
    path := UnblockedAncestor(c, run, n, m, id);
  }

  lemma {:induction false} UnblockedAncestor(c: Config, run: Run, n: nat, m: nat, id: Id) returns (path: seq<Id>)
    requires IsRun(c, run) && m < n < |run.states| && BornAt(run, m, id)
    requires id in run.states[n].recs && StatusOf(run.states[n].recs, id).Blocked?
    ensures Lineage(run.states[n].recs, path) && path[0] == id
            && Unblocked(StatusOf(run.states[n].recs, path[|path| - 1]))
    ensures forall i :: 0 <= i < |path| - 1 ==> StatusOf(run.states[n].recs, path[i]).Blocked?
    decreases m
  {
    var recs := run.states[n].recs;
    var p := UnfinishedParent(c, run, n, m, id);
    if recs[p].task.status.Blocked? {
      var m' := Birth(c, run, m, p);
      var rest := UnblockedAncestor(c, run, n, m', p);
      path := [id] + rest;
      LineageUp(recs, id, rest);
    } else {
      path := [id, p];
    }
  }

  lemma LineageUp(recs: Recs, id: Id, rest: seq<Id>)
    requires Lineage(recs, rest) && id in recs && rest[0] in Parents(recs[id])
    ensures Lineage(recs, [id] + rest)
  {
    var path := [id] + rest;
    forall i | 0 <= i < |path| - 1 ensures path[i + 1] in Parents(recs[path[i]]) {
      assert i > 0 ==> path[i] == rest[i - 1] && path[i + 1] == rest[i];
    }
  }

  /** A blocked task has an unfinished parent, and it was there before the task. */
  lemma UnfinishedParent(c: Config, run: Run, n: nat, m: nat, id: Id) returns (p: Id)
    requires IsRun(c, run) && m < n < |run.states| && BornAt(run, m, id)
    requires id in run.states[n].recs && StatusOf(run.states[n].recs, id).Blocked?
    ensures p in run.states[m].recs && p in run.states[n].recs && p in Parents(run.states[n].recs[id])
    ensures !IsFinal(StatusOf(run.states[n].recs, p))
  {
    hide GraphInv, RecOk, Step;
    var recs := run.states[n].recs;
    FinalFrozen(c, run, m + 1, n, id);
    NewNotRunning(c, run, m, id);
    InvAt(c, run, n);
    AheadInv(recs, id);
    var w := Waiting(recs, Parents(recs[id]));
    assert w != {};
    p :| p in w;
    assert p in Parents(run.states[m + 1].recs[id]);
  }
}
