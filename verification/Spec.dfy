/** One atomic step of a broker, as every backend must perform it. Only the claimed task among the ready ones and the
    dead parent a task canceled by a cascade names in LastError are left open. */
module Spec {
  import opened Model
  import opened Deps
  import opened Cascade

  datatype Config = Config(ttl: map<string, int>, defaultTTL: int, leaseLostMax: int, throttledMax: int)

  /** Init: zero or negative options take their defaults. */
  function Normalized(c: Config): Config {
    c.(defaultTTL := if c.defaultTTL <= 0 then 60000 else c.defaultTTL,
       leaseLostMax := if c.leaseLostMax <= 0 then 3 else c.leaseLostMax,
       throttledMax := if c.throttledMax <= 0 then 100 else c.throttledMax)
  }

  function TtlFor(c: Config, queue: string): int {
    if queue in c.ttl && c.ttl[queue] > 0 then c.ttl[queue] else c.defaultTTL
  }

  /** What the tasks are; the children index is derived from dependsOn and is each backend's own business. */
  datatype State = State(recs: Recs, chains: map<Key, seq<Id>>, replayed: set<Id>)

  datatype FailKind = FailBusiness | FailThrottled | FailSkip

  datatype Error =
    | NotReady
    | TaskNotFound(id: Id)
    | LeaseLost(id: Id)
    | TaskCanceled(id: Id)
    | AlreadyFinal(id: Id)
    | TaskExists(id: Id)
    | KeyExists(key: Key, tail: Id, status: Status)
    | CarriesReplayOf
    | BadReplayRequest
    | KeyNotFound(key: Key)
    | ReplayNotFinal(id: Id)
    | AlreadyReplayed(id: Id)
    | CompletedNotAllowed(id: Id)
    | InvalidName(name: string)

  datatype Reply = Ok | Err(error: Error)

  // ---------------------------------------------------------------------------------------------
  // Records
  // ---------------------------------------------------------------------------------------------

  function Released(r: Rec): Rec {
    r.(task := r.task.(leaseToken := ""), leaseUntil := 0)
  }

  /** Stored bytes: an empty value is stored as no value. */
  function Kept(b: Option<Bytes>): Option<Bytes> {
    if b == Some("") then None else b
  }

  function AckRec(r: Rec, result: Option<Bytes>, now: int): Rec {
    Released(r.(cancelRequested := false,
                task := r.task.(status := Completed, finishedAt := now,
                                result := if result.Some? then Kept(result) else r.task.result)))
  }

  /** Attempts, throttles or skips; at the cap or when retries are spent the task has failed, otherwise it runs again at
      `at`. */
  function FailRec(c: Config, r: Rec, msg: string, kind: FailKind, at: int, now: int): Rec {
    var t := r.task;
    var t1 := t.(lastError := Message(msg),
                 attempts := if kind.FailBusiness? then t.attempts + 1 else t.attempts,
                 throttled := if kind.FailThrottled? then t.throttled + 1 else t.throttled);
    var capped := kind.FailThrottled? && t1.throttled >= c.throttledMax;
    var toFailed := (kind.FailBusiness? && t1.attempts > t1.maxRetry) || capped || kind.FailSkip?;
    var t2 := if capped then t1.(lastError := ThrottledTimes(t1.throttled)) else t1;
    if toFailed then Released(r.(cancelRequested := false, task := t2.(status := Failed, finishedAt := now)))
    else Released(r.(task := t2.(status := Retrying, runAt := at)))
  }

  function RequeueRec(r: Rec): Rec {
    Released(r.(cancelRequested := false, task := r.task.(status := Pending)))
  }

  function ClaimRec(c: Config, r: Rec, token: Token, now: int): Rec {
    r.(task := r.task.(status := Running, leaseToken := token,
                       startedAt := if r.task.startedAt == 0 then now else r.task.startedAt),
       leaseUntil := now + TtlFor(c, r.task.queue))
  }

  predicate Expired(r: Rec, now: int) {
    r.task.status.Running? && r.leaseUntil < now
  }

  /** An expired lease: a requested cancel takes effect, otherwise one more lost lease, failing at the cap. */
  function ReapRec(c: Config, r: Rec, now: int): Rec {
    if r.cancelRequested then CanceledRec(r, CanceledByRequest, now).(cancelRequested := false)
    else
      var r1 := Released(r.(cancelRequested := false, task := r.task.(leaseLost := r.task.leaseLost + 1)));
      if r1.task.leaseLost >= c.leaseLostMax
      then r1.(task := r1.task.(status := Failed, lastError := LeaseExpiredTimes(r1.task.leaseLost), finishedAt := now))
      else r1.(task := r1.task.(status := Pending))
  }

  function ReplayRec(target: Task, id: Id, payload: Option<Bytes>, now: int): Rec {
    Rec(Task(id, target.businessKey, target.id, target.typ, target.queue,
             if payload.Some? then Kept(payload) else target.payload,
             Pending, None, NoError, 0, target.maxRetry, 0, 0, now, [], target.policy, "", now, 0, 0), 0, 0, false)
  }

  /** A submitted task as stored with the status decided for it. */
  function SubmitRec(t: Task, id: Id, status: Status, pendingParents: nat, why: ErrText, now: int): Rec {
    var policy := if t.policy.Unset? then FailFast else t.policy;
    var t1 := t.(id := id, status := status, policy := policy, createdAt := now,
                 payload := Kept(t.payload), result := Kept(t.result),
                 runAt := if t.runAt == 0 then now else t.runAt, leaseToken := "");
    Rec(if status.Canceled? then t1.(lastError := why, finishedAt := now) else t1, pendingParents, 0, false)
  }

  // ---------------------------------------------------------------------------------------------
  // Steps
  // ---------------------------------------------------------------------------------------------

  /** The token check: the task exists, is running, and the token is the one handed out. */
  function LeaseError(recs: Recs, id: Id, token: Token): Option<Error> {
    if id !in recs then Some(TaskNotFound(id))
    else if !StatusOf(recs, id).Running? || token == "" || recs[id].task.leaseToken != token then Some(LeaseLost(id))
    else None
  }

  ghost predicate Refused(s: State, e: Error, s': State, reply: Reply) {
    reply == Err(e) && s' == s
  }

  /** The task becomes r, which is final, and its dependents are settled in the same step. */
  ghost predicate FinalStep(s: State, id: Id, r: Rec, now: int, s': State, reply: Reply) {
    reply == Ok && s' == s.(recs := s'.recs) && Outcome(s.recs[id := r], {id}, now, s'.recs)
  }

  ghost predicate PlainStep(s: State, id: Id, r: Rec, s': State, reply: Reply) {
    reply == Ok && s' == s.(recs := s.recs[id := r])
  }

  ghost predicate AckStep(s: State, id: Id, token: Token, result: Option<Bytes>, now: int, s': State, reply: Reply) {
    match LeaseError(s.recs, id, token)
    case Some(e) => Refused(s, e, s', reply)
    case None => FinalStep(s, id, AckRec(s.recs[id], result, now), now, s', reply)
  }

  ghost predicate FailStep(c: Config, s: State, id: Id, token: Token, msg: string, kind: FailKind, at: int, now: int,
                           s': State, reply: Reply)
  {
    match LeaseError(s.recs, id, token)
    case Some(e) => Refused(s, e, s', reply)
    case None =>
      var r := FailRec(c, s.recs[id], msg, kind, at, now);
      if IsFinal(r.task.status) then FinalStep(s, id, r, now, s', reply) else PlainStep(s, id, r, s', reply)
  }

  ghost predicate CancelStep(s: State, id: Id, now: int, s': State, reply: Reply) {
    if id !in s.recs then Refused(s, TaskNotFound(id), s', reply)
    else if IsFinal(StatusOf(s.recs, id)) then Refused(s, AlreadyFinal(id), s', reply)
    else if StatusOf(s.recs, id).Running? then PlainStep(s, id, s.recs[id].(cancelRequested := true), s', reply)
    else FinalStep(s, id, CanceledRec(s.recs[id], CanceledByRequest, now), now, s', reply)
  }

  ghost predicate FinishCanceledStep(s: State, id: Id, token: Token, now: int, s': State, reply: Reply) {
    match LeaseError(s.recs, id, token)
    case Some(e) => Refused(s, e, s', reply)
    case None =>
      FinalStep(s, id, CanceledRec(s.recs[id], CanceledByRequest, now).(cancelRequested := false), now, s', reply)
  }

  ghost predicate RequeueStep(s: State, id: Id, token: Token, s': State, reply: Reply) {
    match LeaseError(s.recs, id, token)
    case Some(e) => Refused(s, e, s', reply)
    case None => PlainStep(s, id, RequeueRec(s.recs[id]), s', reply)
  }

  /** The lease is renewed even when the answer is that the task should stop. */
  ghost predicate HeartbeatStep(c: Config, s: State, id: Id, token: Token, now: int, s': State, reply: Reply) {
    match LeaseError(s.recs, id, token)
    case Some(e) => Refused(s, e, s', reply)
    case None =>
      var r := s.recs[id];
      s' == s.(recs := s.recs[id := r.(leaseUntil := now + TtlFor(c, r.task.queue))])
      && reply == if r.cancelRequested then Err(TaskCanceled(id)) else Ok
  }

  predicate Queued(r: Rec) {
    r.task.status.Pending? || r.task.status.Retrying?
  }

  ghost predicate Ready(recs: Recs, queues: set<string>, now: int, id: Id) {
    id in recs && Queued(recs[id]) && recs[id].task.queue in queues && recs[id].task.runAt <= now
  }

  /** A claim takes some ready task, and comes back empty only when there is none. */
  ghost predicate ClaimStep(c: Config, s: State, queues: set<string>, token: Token, now: int, s': State,
                            got: Option<Id>) {
    match got
    case None => s' == s && forall id :: !Ready(s.recs, queues, now, id)
    case Some(id) => Ready(s.recs, queues, now, id)
                     && s' == s.(recs := s.recs[id := ClaimRec(c, s.recs[id], token, now)])
  }

  /** The distinct parents that are not final yet. */
  ghost function Waiting(recs: Recs, parents: set<Id>): set<Id> {
    set p | p in parents && p in recs && !IsFinal(StatusOf(recs, p))
  }

  ghost predicate AnyDead(recs: Recs, parents: set<Id>) {
    exists p :: p in parents && p in recs && Dead(StatusOf(recs, p))
  }

  ghost function InitialStatus(recs: Recs, parents: set<Id>, policy: Policy): Status {
    if !policy.IgnoreParentFail? && AnyDead(recs, parents) then Canceled
    else if Waiting(recs, parents) != {} then Blocked
    else Pending
  }

  /** e names the first dead parent in the order of mention. */
  ghost predicate NamesDead(recs: Recs, deps: seq<Id>, e: ErrText) {
    var p := FirstDead(recs, deps);
    p.Some? && p.value in recs && e == ParentFailureReason(p.value, StatusOf(recs, p.value))
  }

  ghost predicate Submitted(recs: Recs, t: Task, id: Id, now: int, r: Rec) {
    var parents := ParentSet(t.dependsOn);
    var status := InitialStatus(recs, parents, t.policy);
    r == SubmitRec(t, id, status, if status.Blocked? then |Waiting(recs, parents)| else 0, r.task.lastError, now)
    && (status.Canceled? ==> NamesDead(recs, t.dependsOn, r.task.lastError))
  }

  function Appended(chains: map<Key, seq<Id>>, key: Key, id: Id): map<Key, seq<Id>> {
    if key == "" then chains
    else chains[key := (if key in chains then chains[key] else []) + [id]]
  }

  predicate HasChain(s: State, key: Key) {
    key in s.chains && s.chains[key] != []
  }

  function Tail(s: State, key: Key): Id
    requires HasChain(s, key)
  {
    s.chains[key][|s.chains[key]| - 1]
  }

  /** The first reason not to accept a submission. */
  ghost predicate SubmitError(s: State, t: Task, e: Error) {
    if t.replayOf != "" then e == CarriesReplayOf
    else if t.businessKey != "" && HasChain(s, t.businessKey) then
      var tail := Tail(s, t.businessKey);
      tail in s.recs && e == KeyExists(t.businessKey, tail, StatusOf(s.recs, tail))
    else if t.id != "" && t.id in s.recs then e == TaskExists(t.id)
    else
      var p := FirstUnknown(s.recs, t.dependsOn);
      p.Some? && e == TaskNotFound(p.value)
  }

  ghost predicate Submittable(s: State, t: Task) {
    t.replayOf == "" && !(t.businessKey != "" && HasChain(s, t.businessKey)) && !(t.id != "" && t.id in s.recs)
    && forall p :: p in t.dependsOn ==> p in s.recs
  }

  ghost predicate EnqueueStep(s: State, t: Task, gen: Id, now: int, s': State, reply: Reply) {
    var id := if t.id != "" then t.id else gen;
    if Submittable(s, t) then
      reply == Ok && id in s'.recs && Submitted(s.recs, t, id, now, s'.recs[id])
      && s' == s.(recs := s.recs[id := s'.recs[id]], chains := Appended(s.chains, t.businessKey, id))
    else exists e :: SubmitError(s, t, e) && Refused(s, e, s', reply)
  }

  datatype ReplayRequest = ReplayRequest(executionId: Id, businessKey: Key, allowCompleted: bool,
                                         payload: Option<Bytes>)

  function ReplayTarget(s: State, req: ReplayRequest): Option<Id> {
    if req.executionId != "" then (if req.executionId in s.recs then Some(req.executionId) else None)
    else if HasChain(s, req.businessKey) then Some(Tail(s, req.businessKey)) else None
  }

  function ReplayError(s: State, req: ReplayRequest): Option<Error> {
    if (req.executionId == "") == (req.businessKey == "") then Some(BadReplayRequest)
    else match ReplayTarget(s, req)
      case None => Some(if req.executionId != "" then TaskNotFound(req.executionId) else KeyNotFound(req.businessKey))
      case Some(target) =>
        if target !in s.recs then Some(TaskNotFound(target))
        else if !IsFinal(StatusOf(s.recs, target)) then Some(ReplayNotFinal(target))
        else if target in s.replayed then Some(AlreadyReplayed(target))
        else if StatusOf(s.recs, target).Completed? && !req.allowCompleted then Some(CompletedNotAllowed(target))
        else None
  }

  ghost predicate ReplayStep(s: State, req: ReplayRequest, gen: Id, now: int, s': State, reply: Reply) {
    match ReplayError(s, req)
    case Some(e) => Refused(s, e, s', reply)
    case None =>
      var target := ReplayTarget(s, req).value;
      var r := ReplayRec(s.recs[target].task, gen, req.payload, now);
      reply == Ok
      && s' == State(s.recs[gen := r], Appended(s.chains, r.task.businessKey, gen), s.replayed + {target})
  }

  /** Every expired lease in `which` is reaped. */
  ghost function Reaped(c: Config, recs: Recs, which: set<Id>, now: int): Recs {
    map id | id in recs :: if id in which && Expired(recs[id], now) then ReapRec(c, recs[id], now) else recs[id]
  }

  /** The reaped tasks that ended. */
  ghost function Ended(c: Config, recs: Recs, which: set<Id>, now: int): set<Id> {
    set id | id in recs && id in which && Expired(recs[id], now) && IsFinal(ReapRec(c, recs[id], now).task.status)
  }

  ghost function ExpiredIds(recs: Recs, skip: set<Id>, now: int): set<Id> {
    set id | id in recs && id !in skip && Expired(recs[id], now)
  }

  /** All expired leases at once, except those another transaction holds and leaves for the next time, then one cascade
      from all the tasks that ended. */
  ghost predicate ReapStep(c: Config, s: State, now: int, skip: set<Id>, s': State, count: nat) {
    s' == s.(recs := s'.recs) && count == |ExpiredIds(s.recs, skip, now)|
    && Outcome(Reaped(c, s.recs, s.recs.Keys - skip, now), Ended(c, s.recs, s.recs.Keys - skip, now), now, s'.recs)
  }

  function Unmarked(r: Rec): Rec {
    r.(cancelRequested := false)
  }

  /** The record as a reaper sees it that overlooks its cancel mark. */
  function SeenAs(r: Rec, unseen: bool): Rec {
    if unseen then Unmarked(r) else r
  }

  /** The expired leases among `unseen` without their marks. */
  function Overlooked(recs: Recs, unseen: set<Id>, now: int): Recs {
    map id | id in recs :: SeenAs(recs[id], id in unseen && Expired(recs[id], now))
  }

  /** A reap that overlooks the cancel marks of `unseen`. The reference and the scripts overlook none. */
  ghost predicate ReapCall(c: Config, s: State, now: int, skip: set<Id>, unseen: set<Id>, s': State) {
    var s0 := s.(recs := Overlooked(s.recs, unseen, now));
    unseen !! skip && ReapStep(c, s0, now, skip, s', |ExpiredIds(s0.recs, skip, now)|)
  }

  lemma OverlookNone(recs: Recs, now: int)
    ensures Overlooked(recs, {}, now) == recs
  {}
}
