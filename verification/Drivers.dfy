/** Whole programs over the two broker classes: any sequence of calls on either one is a run of the specification, and
    the same calls with the same claim choices leave both in agreement. */
module Drivers {
  import opened Model
  import opened Spec
  import opened Graph
  import opened Invariants
  import opened Reachable
  import opened Runs
  import opened Agreement
  import opened Encodings
  import Reaping
  import MemoryBroker
  import RedisBroker

  /** A call as the broker carries it out: the task a claim took, and the clock reading for a missing retry time. */
  function Taken(call: Op, got: Option<Id>, asked: int): Op {
    match call
    case OpClaim(queues, token, now, _) => OpClaim(queues, token, now, got)
    case OpFail(id, token, msg, kind, at, now) => OpFail(id, token, msg, kind, if at == 0 then asked else at, now)
    case _ => call
  }

  function ClockOf(call: Op): int {
    if call.OpFail? then call.now else 0
  }

  /** What the generators guarantee: fresh non-empty ids and non-empty tokens. A reaper of these brokers
      skips nobody and overlooks nothing. */
  predicate Callable(recs: Recs, call: Op) {
    match call
    case OpEnqueue(_, gen, _) => gen != "" && gen !in recs
    case OpReplay(_, gen, _) => gen != "" && gen !in recs
    case OpClaim(_, token, _, _) => token != ""
    case OpReap(_, skip, unseen) => skip == {} && unseen == {}
    case _ => true
  }

  /** One call with a token on the reference broker. */
  method HolderMemory(b: MemoryBroker.Broker, call: Op) returns (ghost taken: Op, reply: Reply)
    requires b.Wired() && b.Live() && TokenCall(call).Some?
    modifies b
    ensures b.Wired() && b.Live() && b.cfg == old(b.cfg)
    ensures Step(b.cfg, old(b.Abs()), taken, b.Abs(), reply) && TakenAs(call, taken)
  {
    hide FailStep, AckStep, FinishCanceledStep, RequeueStep, HeartbeatStep;
    match call {
      case OpAck(id, token, result, now) => reply := b.Ack(id, token, result, now);
      case OpFail(id, token, msg, kind, at, now) => reply := b.Fail(id, token, msg, kind, at, now);
      case OpFinishCanceled(id, token, now) => reply := b.FinishCanceled(id, token, now);
      case OpRequeue(id, token) => reply := b.Requeue(id, token);
      case OpHeartbeat(id, token, now) => reply := b.Heartbeat(id, token, now);
    }
    taken := Taken(call, None, ClockOf(call));
  }

  /** Any other call on it. */
  method ClientMemory(b: MemoryBroker.Broker, call: Op) returns (ghost taken: Op, reply: Reply)
    requires b.Wired() && b.Live() && Inv(b.Abs()) && Callable(b.recs, call) && TokenCall(call).None?
    modifies b
    ensures b.Wired() && b.Live() && b.cfg == old(b.cfg)
    ensures Step(b.cfg, old(b.Abs()), taken, b.Abs(), reply) && TakenAs(call, taken)
  {
    hide Inv, EnqueueStep, ReplayStep, ReapCall, CancelStep, ClaimStep, Reaping.ReapedThenRepaired,
         MemoryBroker.FirstDue;
    ghost var s := b.Abs();
    var got: Option<Id> := None;
    match call {
      case OpEnqueue(t, gen, now) => reply := b.Enqueue(t, gen, now);
      case OpClaim(queues, token, now, _) => reply, got := b.TryDequeue(queues, token, now);
      case OpCancel(id, now) => reply := b.Cancel(id, now);
      case OpReplay(req, gen, now) => reply := b.Replay(req, gen, now);
      case OpReap(now, _, _) =>
        InvGraph(s);
        var count;
        reply, count := b.ReapExpired(now);
        ReapCount(b.cfg, s, now, b.Abs(), count);
    }
    taken := Taken(call, got, ClockOf(call));
  }

  /** One call on the reference broker. */
  method CallMemory(b: MemoryBroker.Broker, call: Op) returns (ghost taken: Op, reply: Reply)
    requires b.Wired() && b.Live() && Inv(b.Abs()) && Callable(b.recs, call)
    modifies b
    ensures b.Wired() && b.Live() && b.cfg == old(b.cfg) && Inv(b.Abs())
    ensures Step(b.cfg, old(b.Abs()), taken, b.Abs(), reply) && TakenAs(call, taken)
  {
    hide Inv, Step;
    ghost var s := b.Abs();
    if TokenCall(call).Some? {
      taken, reply := HolderMemory(b, call);
    } else {
      taken, reply := ClientMemory(b, call);
    }
    StepInv(b.cfg, s, taken, b.Abs(), reply);
  }

  lemma InvGraph(s: State)
    requires Inv(s)
    ensures GraphInv(s.recs)
  {}

  lemma ReapCount(c: Config, s: State, now: int, s': State, count: nat)
    requires ReapStep(c, s, now, {}, s', count)
    ensures ReapCall(c, s, now, {}, {}, s')
  {
    hide ReapStep;
    OverlookNone(s.recs, now);
    assert count == |ExpiredIds(s.recs, {}, now)| by { ReapsAll(c, s, now, s', count); }
  }

  lemma ReapsAll(c: Config, s: State, now: int, s': State, count: nat)
    requires ReapStep(c, s, now, {}, s', count)
    ensures count == |ExpiredIds(s.recs, {}, now)|
  {}

  // ---- Redis ----

  /** Overrides that the heartbeat script treats like the reference. */
  predicate PositiveTtls(c: Config) {
    c.defaultTTL > 0 && forall q :: q in c.ttl ==> c.ttl[q] > 0
  }

  /** Names that the client lets through to the scripts. */
  predicate CleanCall(call: Op) {
    match call
    case OpEnqueue(t, gen, _) => ValidName(gen) && (t.replayOf != "" || RedisBroker.CleanNames(t))
    case OpReplay(req, gen, _) => ValidName(gen) && RedisBroker.CleanReplay(req)
    case _ => true
  }

  /** One call with a token on the Redis broker. */
  method HolderRedis(b: RedisBroker.Store, call: Op) returns (ghost taken: Op, reply: Reply)
    requires b.Indexed() && b.Linked() && TokenCall(call).Some? && PositiveTtls(b.cfg)
    modifies b
    ensures b.Indexed() && b.Linked() && b.cfg == old(b.cfg)
    ensures Step(b.cfg, old(b.Abs()), taken, b.Abs(), reply) && TakenAs(call, taken)
  {
    hide FailStep, AckStep, FinishCanceledStep, RequeueStep, HeartbeatStep, RedisBroker.ScriptHeartbeat;
    ghost var s := b.Abs();
    var asked: int := *;
    match call {
      case OpAck(id, token, result, now) => reply := b.Ack(id, token, result, now);
      case OpFail(id, token, msg, kind, at, now) => reply := b.Fail(id, token, msg, kind, at, asked, now);
      case OpFinishCanceled(id, token, now) => reply := b.FinishCanceled(id, token, now);
      case OpRequeue(id, token) =>
        var now: int := *;
        reply := b.Requeue(id, token, now);
      case OpHeartbeat(id, token, now) =>
        reply := b.Heartbeat(id, token, now);
        HeartbeatIsStep(b.cfg, s, id, token, now, b.Abs(), reply);
    }
    taken := Taken(call, None, asked);
  }

  /** Any other call on it. */
  method ClientRedis(b: RedisBroker.Store, call: Op) returns (ghost taken: Op, reply: Reply)
    requires b.Indexed() && b.Linked() && Inv(b.Abs()) && Callable(b.recs, call) && CleanCall(call)
    requires TokenCall(call).None?
    modifies b
    ensures b.Indexed() && b.Linked() && b.cfg == old(b.cfg)
    ensures Step(b.cfg, old(b.Abs()), taken, b.Abs(), reply) && TakenAs(call, taken)
  {
    hide Inv, EnqueueStep, ReplayStep, ReapCall, CancelStep, ClaimStep, RedisBroker.CleanNames, RedisBroker.CleanReplay,
         Reaping.ReapedThenRepaired;
    ghost var s := b.Abs();
    var got: Option<Id> := None;
    reply := Ok;
    match call {
      case OpEnqueue(t, gen, now) => reply := b.Enqueue(t, gen, now);
      case OpClaim(queues, token, now, _) =>
        var qs := RedisBroker.Members(queues);
        var due;
        ghost var stale;
        got, due, stale := b.Claim(qs, token, now);
      case OpCancel(id, now) => reply := b.Cancel(id, now);
      case OpReplay(req, gen, now) => reply := b.Replay(req, gen, now);
      case OpReap(now, _, _) =>
        InvGraph(s);
        var count;
        ghost var stale;
        count, stale := b.ReapExpired(now);
        ReapCount(b.cfg, s, now, b.Abs(), count);
    }
    taken := Taken(call, got, 0);
  }

  /** One call on the Redis broker. */
  method CallRedis(b: RedisBroker.Store, call: Op) returns (ghost taken: Op, reply: Reply)
    requires b.Indexed() && b.Linked() && Inv(b.Abs()) && Callable(b.recs, call) && CleanCall(call)
             && PositiveTtls(b.cfg)
    modifies b
    ensures b.Indexed() && b.Linked() && b.cfg == old(b.cfg) && Inv(b.Abs())
    ensures Step(b.cfg, old(b.Abs()), taken, b.Abs(), reply) && TakenAs(call, taken)
  {
    hide Inv, Step;
    ghost var s := b.Abs();
    if TokenCall(call).Some? {
      taken, reply := HolderRedis(b, call);
    } else {
      taken, reply := ClientRedis(b, call);
    }
    StepInv(b.cfg, s, taken, b.Abs(), reply);
  }

  lemma HeartbeatIsStep(c: Config, s: State, id: Id, token: Token, now: int, s': State, reply: Reply)
    requires PositiveTtls(c) && RedisBroker.ScriptHeartbeat(c, s, id, token, now, s', reply)
    ensures HeartbeatStep(c, s, id, token, now, s', reply)
  {
    RedisBroker.HeartbeatAgrees(c, s, id, token, now, s', reply);
  }

  // ---- sequences of calls ----

  /** The ids a call may bring into the broker. */
  function Names(call: Op): set<Id> {
    match call
    case OpEnqueue(t, gen, _) => {t.id, gen}
    case OpReplay(_, gen, _) => {gen}
    case _ => {}
  }

  predicate Generated(calls: seq<Op>, k: nat)
    requires k < |calls|
  {
    match calls[k]
    case OpEnqueue(_, gen, _) => gen != "" && forall j :: 0 <= j < k ==> gen !in Names(calls[j])
    case OpReplay(_, gen, _) => gen != "" && forall j :: 0 <= j < k ==> gen !in Names(calls[j])
    case OpClaim(_, token, _, _) => token != ""
    case OpReap(_, skip, unseen) => skip == {} && unseen == {}
    case _ => true
  }

  /** A program: generated ids are new, tokens are drawn once. */
  ghost predicate Program(calls: seq<Op>) {
    FreshTokens(calls) && forall k :: 0 <= k < |calls| ==> Generated(calls, k)
  }

  ghost predicate Named(calls: seq<Op>, k: nat, x: Id)
    requires k <= |calls|
  {
    exists j :: 0 <= j < k && x in Names(calls[j])
  }

  lemma StepNames(c: Config, s: State, op: Op, s': State, reply: Reply)
    requires Step(c, s, op, s', reply)
    ensures forall x :: x in s'.recs ==> x in s.recs || x in Names(op)
  {
    hide ReapCall, Submitted, SubmitError;
    if !op.OpEnqueue? && !op.OpReplay? {
      StepOthers(c, s, op, s', reply);
    }
  }

  lemma CallFresh(calls: seq<Op>, k: nat, recs: Recs)
    requires k < |calls| && Generated(calls, k) && forall x :: x in recs ==> Named(calls, k, x)
    ensures Callable(recs, calls[k])
  {}

  ghost predicate TakenAs(call: Op, op: Op) {
    exists got, asked :: op == Taken(call, got, asked)
  }

  lemma SameNames(call: Op, op: Op)
    requires TakenAs(call, op)
    ensures Names(op) == Names(call)
  {}

  /** The run so far: one step per call made. */
  ghost predicate Follows(c: Config, calls: seq<Op>, k: nat, run: Run, s: State)
    requires k <= |calls|
  {
    |run.ops| == k && |run.states| == k + 1 && |run.replies| == k && run.states[0] == Empty && run.states[k] == s
    && (forall i :: 0 <= i < k ==> StepAt(c, run, i) && TakenAs(calls[i], run.ops[i]))
    && (forall x :: x in s.recs ==> Named(calls, k, x))
  }

  lemma FollowsStart(c: Config, calls: seq<Op>)
    ensures Follows(c, calls, 0, Run([Empty], [], []), Empty)
  {}

  lemma FollowsNext(c: Config, calls: seq<Op>, k: nat, run: Run, s: State, op: Op, s': State, reply: Reply)
    requires k < |calls| && Follows(c, calls, k, run, s) && Step(c, s, op, s', reply)
    requires TakenAs(calls[k], op)
    ensures Follows(c, calls, k + 1, Run(run.states + [s'], run.ops + [op], run.replies + [reply]), s')
  {
    hide Step, Taken;
    var run' := Run(run.states + [s'], run.ops + [op], run.replies + [reply]);
    forall i | 0 <= i < k + 1 ensures StepAt(c, run', i) && TakenAs(calls[i], run'.ops[i]) {
      if i < k {
        assert StepAt(c, run, i);
        assert TakenAs(calls[i], run.ops[i]);
      }
    }
    StepNames(c, s, op, s', reply);
    forall x | x in s'.recs ensures Named(calls, k + 1, x) {
      if x in s.recs {
        var j :| 0 <= j < k && x in Names(calls[j]);
        assert 0 <= j < k + 1;
      } else {
        SameNames(calls[k], op);
      }
    }
  }

  lemma FollowsRun(c: Config, calls: seq<Op>, run: Run, s: State)
    requires Program(calls) && Follows(c, calls, |calls|, run, s)
    ensures IsRun(c, run) && Attentive(run)
  {
    hide StepAt;
    forall i | 0 <= i < |run.ops| && run.ops[i].OpReap? ensures run.ops[i].unseen == {} {
      assert TakenAs(calls[i], run.ops[i]) && Generated(calls, i);
    }
    forall i, j | 0 <= i < j < |run.ops| && run.ops[i].OpClaim? && run.ops[j].OpClaim?
      ensures run.ops[i].token != run.ops[j].token
    {
      assert TakenAs(calls[i], run.ops[i]) && TakenAs(calls[j], run.ops[j]);
    }
  }

  /** Any program on a new reference broker is a run. */
  method RunMemory(c: Config, calls: seq<Op>) returns (b: MemoryBroker.Broker, ghost run: Run)
    requires Program(calls)
    ensures fresh(b) && b.Wired() && b.cfg == Normalized(c)
    ensures Follows(b.cfg, calls, |calls|, run, b.Abs()) && IsRun(b.cfg, run) && Attentive(run)
  {
    hide Follows, Inv, Step, Generated;
    b := new MemoryBroker.Broker();
    b.Init(c);
    run := Run([Empty], [], []);
    assert Inv(b.Abs()) by { InvStart(); }
    FollowsStart(b.cfg, calls);
    for k := 0 to |calls|
      invariant fresh(b) && b.Wired() && b.Live() && b.cfg == Normalized(c) && Inv(b.Abs())
      invariant Follows(b.cfg, calls, k, run, b.Abs())
    {
      FollowsFresh(b.cfg, calls, k, run, b.Abs());
      ghost var s := b.Abs();
      ghost var taken;
      var reply;
      taken, reply := CallMemory(b, calls[k]);
      FollowsNext(b.cfg, calls, k, run, s, taken, b.Abs(), reply);
      run := Run(run.states + [b.Abs()], run.ops + [taken], run.replies + [reply]);
    }
    FollowsRun(b.cfg, calls, run, b.Abs());
  }

  lemma FollowsFresh(c: Config, calls: seq<Op>, k: nat, run: Run, s: State)
    requires Program(calls) && k < |calls| && Follows(c, calls, k, run, s)
    ensures Callable(s.recs, calls[k])
  {
    hide StepAt;
    CallFresh(calls, k, s.recs);
  }

  /** Any program with clean names on an empty Redis store is a run. */
  method RunRedis(c: Config, calls: seq<Op>) returns (b: RedisBroker.Store, ghost run: Run)
    requires Program(calls) && PositiveTtls(Normalized(c)) && forall k :: 0 <= k < |calls| ==> CleanCall(calls[k])
    ensures fresh(b) && b.Indexed() && b.Linked() && b.cfg == Normalized(c)
    ensures Follows(b.cfg, calls, |calls|, run, b.Abs()) && IsRun(b.cfg, run) && Attentive(run)
  {
    hide Follows, Inv, Step, Generated, CleanCall;
    b := new RedisBroker.Store(c);
    run := Run([Empty], [], []);
    assert Inv(b.Abs()) by { InvStart(); }
    FollowsStart(b.cfg, calls);
    for k := 0 to |calls|
      invariant fresh(b) && b.Indexed() && b.Linked() && b.cfg == Normalized(c) && Inv(b.Abs())
      invariant Follows(b.cfg, calls, k, run, b.Abs())
    {
      FollowsFresh(b.cfg, calls, k, run, b.Abs());
      ghost var s := b.Abs();
      ghost var taken;
      var reply;
      taken, reply := CallRedis(b, calls[k]);
      FollowsNext(b.cfg, calls, k, run, s, taken, b.Abs(), reply);
      run := Run(run.states + [b.Abs()], run.ops + [taken], run.replies + [reply]);
    }
    FollowsRun(b.cfg, calls, run, b.Abs());
  }

  /** The simulation, stated of the objects: the same program on both brokers, and if they made the same claim choices
      and read the same clock for missing retry times they end in states that differ at most in
      named reasons, having given the same answers throughout. */
  method RunBoth(c: Config, calls: seq<Op>)
    returns (m: MemoryBroker.Broker, r: RedisBroker.Store, ghost a: Run, ghost b: Run)
    requires Program(calls) && PositiveTtls(Normalized(c)) && forall k :: 0 <= k < |calls| ==> CleanCall(calls[k])
    ensures m.Wired() && r.Indexed() && r.Linked() && IsRun(Normalized(c), a) && IsRun(Normalized(c), b)
    ensures |a.ops| == |b.ops| == |calls| && |a.states| == |b.states| == |calls| + 1
    ensures a.states[|calls|] == m.Abs() && b.states[|calls|] == r.Abs()
    ensures a.ops == b.ops ==> Agree(m.Abs(), r.Abs()) && a.replies == b.replies
  {
    hide IsRun, Agree, StepAt;
    m, a := RunMemory(c, calls);
    r, b := RunRedis(c, calls);
    if a.ops == b.ops {
      RunsAgree(m.cfg, a, b, |calls|);
      forall k | 0 <= k < |calls| ensures a.replies[k] == b.replies[k] {
        RunsAgree(m.cfg, a, b, k + 1);
      }
    }
  }
}
