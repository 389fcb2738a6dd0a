/** The invariant of every reachable state: dependencies, leases, marks and replay chains. */
module Reachable {
  import opened Model
  import opened Cascade
  import opened Spec
  import opened Graph
  import opened Invariants

  /** A record under its own id; running exactly when it has a token; the cancel mark only where it still matters. */
  predicate RecOk(id: Id, r: Rec) {
    id != "" && r.task.id == id
    && (r.task.status.Running? <==> r.task.leaseToken != "")
    && (r.cancelRequested ==> r.task.status.Running? || r.task.status.Retrying? || r.task.status.Canceled?)
  }

  /** The fields no step ever changes. */
  predicate SameIdentity(a: Task, b: Task) {
    b.id == a.id && b.businessKey == a.businessKey && b.replayOf == a.replayOf && b.typ == a.typ && b.queue == a.queue
    && b.payload == a.payload && b.dependsOn == a.dependsOn && b.policy == a.policy && b.maxRetry == a.maxRetry
    && b.createdAt == a.createdAt
  }

  lemma EvolvesKeeps(c: Config, op: Op, id: Id, r: Rec, r': Rec)
    requires Evolves(c, op, id, r, r') && RecOk(id, r)
    ensures RecOk(id, r') && SameIdentity(r.task, r'.task)
    ensures IsFinal(r.task.status) ==> r' == r
  {
    hide FailRec, ReapRec, AckRec, CanceledRec;
    if r' != r && Own(c, op, id, r, r') {
      OwnKeeps(c, op, id, r, r');
    } else if r' != r {
      CanceledKeeps(id, r, r'.task.lastError, r'.task.finishedAt);
    }
  }

  lemma CanceledKeeps(id: Id, r: Rec, why: ErrText, now: int)
    requires RecOk(id, r)
    ensures var r' := CanceledRec(r, why, now);
            RecOk(id, r') && SameIdentity(r.task, r'.task)
            && RecOk(id, r'.(cancelRequested := false))
  {}

  lemma OwnKeeps(c: Config, op: Op, id: Id, r: Rec, r': Rec)
    requires Own(c, op, id, r, r') && RecOk(id, r)
    ensures RecOk(id, r') && SameIdentity(r.task, r'.task) && !IsFinal(r.task.status)
  {
    hide FailRec, ReapRec, AckRec, CanceledRec;
    match op {
      case OpFail(_, _, msg, kind, at, now) => FailKeepsRec(c, id, r, msg, kind, at, now);
      case OpReap(now, _, unseen) => ReapKeepsRec(c, id, SeenAs(r, id in unseen), now);
      case OpAck(_, _, result, now) => AckKeepsRec(id, r, result, now);
      case OpCancel(_, now) => CanceledKeeps(id, r, CanceledByRequest, now);
      case OpFinishCanceled(_, _, now) => CanceledKeeps(id, r, CanceledByRequest, now);
      case _ =>
    }
  }

  lemma FailKeepsRec(c: Config, id: Id, r: Rec, msg: string, kind: FailKind, at: int, now: int)
    requires RecOk(id, r) && r.task.status.Running?
    ensures var r' := FailRec(c, r, msg, kind, at, now); RecOk(id, r') && SameIdentity(r.task, r'.task)
  {}

  lemma ReapKeepsRec(c: Config, id: Id, r: Rec, now: int)
    requires RecOk(id, r)
    ensures var r' := ReapRec(c, r, now); RecOk(id, r') && SameIdentity(r.task, r'.task)
  {}

  lemma AckKeepsRec(id: Id, r: Rec, result: Option<Bytes>, now: int)
    requires RecOk(id, r)
    ensures var r' := AckRec(r, result, now); RecOk(id, r') && SameIdentity(r.task, r'.task)
  {}

  // ---- replay chains ----

  /** A key's chain lists its executions, each the replay of the one before it. */
  ghost predicate ChainOk(s: State, k: Key)
    requires k in s.chains
  {
    var ch := s.chains[k];
    k != "" && ch != [] && NoDup(ch)
    && forall i :: 0 <= i < |ch| ==> LinkOk(s, k, ch, i)
  }

  ghost predicate LinkOk(s: State, k: Key, ch: seq<Id>, i: int)
    requires 0 <= i < |ch|
  {
    ch[i] in s.recs && s.recs[ch[i]].task.businessKey == k
    && s.recs[ch[i]].task.replayOf == if i == 0 then "" else ch[i - 1]
  }

  /** An execution is listed under its key, and points to a replayed execution of the same key. */
  ghost predicate Listed(s: State, x: Id)
    requires x in s.recs
  {
    var t := s.recs[x].task;
    (t.businessKey != "" ==> t.businessKey in s.chains && x in s.chains[t.businessKey])
    && (t.replayOf != "" ==> t.replayOf in s.replayed && t.replayOf in s.recs
                             && s.recs[t.replayOf].task.businessKey == t.businessKey)
  }

  /** A replayed execution is final. */
  ghost predicate ReplayedOk(s: State, y: Id) {
    y in s.recs && IsFinal(StatusOf(s.recs, y)) && exists x :: Replays(s, x, y)
  }

  ghost predicate Replays(s: State, x: Id, y: Id) {
    x in s.recs && y != "" && s.recs[x].task.replayOf == y
  }

  ghost predicate ChainInv(s: State) {
    (forall k :: k in s.chains ==> ChainOk(s, k))
    && (forall x :: x in s.recs ==> Listed(s, x))
    && (forall y :: y in s.replayed ==> ReplayedOk(s, y))
    && (forall x1, x2, y :: Replays(s, x1, y) && Replays(s, x2, y) ==> x1 == x2)
  }

  ghost predicate Inv(s: State) {
    GraphInv(s.recs) && (forall id :: id in s.recs ==> RecOk(id, s.recs[id])) && ChainInv(s)
  }

  const Empty := State(map[], map[], {})

  lemma InvStart()
    ensures Inv(Empty)
  {}

  /** Chains hold as long as no record appears, changes identity or leaves a final status. */
  lemma ChainKept(s: State, s': State)
    requires ChainInv(s) && s'.chains == s.chains && s'.replayed == s.replayed && s'.recs.Keys == s.recs.Keys
    requires forall x :: x in s.recs ==> SameIdentity(s.recs[x].task, s'.recs[x].task)
    requires forall x :: x in s.recs && IsFinal(StatusOf(s.recs, x)) ==> s'.recs[x] == s.recs[x]
    ensures ChainInv(s')
  {
    forall k | k in s'.chains ensures ChainOk(s', k) {
      assert ChainOk(s, k);
      forall i | 0 <= i < |s.chains[k]| ensures LinkOk(s', k, s.chains[k], i) {
        assert LinkOk(s, k, s.chains[k], i);
      }
    }
    forall x | x in s'.recs ensures Listed(s', x) {
      assert Listed(s, x);
    }
    forall x, y ensures Replays(s', x, y) <==> Replays(s, x, y) {}
    forall y | y in s'.replayed ensures ReplayedOk(s', y) {
      assert ReplayedOk(s, y);
      var x :| Replays(s, x, y);
      assert Replays(s', x, y);
    }
  }

  /** s' is s with one new execution, which starts a chain or extends one at its unreplayed end. */
  ghost predicate Extends(s: State, id: Id, r: Rec, s': State) {
    var k, y := r.task.businessKey, r.task.replayOf;
    id != "" && id !in s.recs && "" !in s.recs && r.task.id == id
    && s' == State(s.recs[id := r], Appended(s.chains, k, id), if y == "" then s.replayed else s.replayed + {y})
    && if y == "" then k == "" || !HasChain(s, k)
       else y in s.recs && y !in s.replayed && IsFinal(StatusOf(s.recs, y)) && s.recs[y].task.businessKey == k
  }

  lemma ReplaysExtended(s: State, id: Id, r: Rec, s': State)
    requires ChainInv(s) && Extends(s, id, r, s')
    ensures forall x, y :: Replays(s', x, y) <==> Replays(s, x, y) || (x == id && y != "" && y == r.task.replayOf)
    ensures forall x1, x2, y :: Replays(s', x1, y) && Replays(s', x2, y) ==> x1 == x2
    ensures forall z :: z in s'.replayed ==> ReplayedOk(s', z)
  {
    var y := r.task.replayOf;
    forall x1, x2 ensures Replays(s', x1, x2) <==> Replays(s, x1, x2) || (x1 == id && x2 != "" && x2 == y) {}
    if y != "" {
      forall x | x in s.recs ensures !Replays(s, x, y) {
        assert Listed(s, x);
      }
    }
    forall z | z in s'.replayed ensures ReplayedOk(s', z) {
      if z in s.replayed {
        assert ReplayedOk(s, z);
        var x :| Replays(s, x, z);
        assert Replays(s', x, z);
      } else {
        assert Replays(s', id, z);
      }
    }
  }

  lemma ChainExtended(s: State, id: Id, r: Rec, s': State)
    requires ChainInv(s) && Extends(s, id, r, s')
    ensures ChainInv(s')
  {
    ReplaysExtended(s, id, r, s');
    forall j | j in s'.chains ensures ChainOk(s', j) {
      ChainLonger(s, id, r, s', j);
    }
    forall x | x in s'.recs ensures Listed(s', x) {
      ListedExtended(s, id, r, s', x);
    }
  }

  lemma ListedExtended(s: State, id: Id, r: Rec, s': State, x: Id)
    requires ChainInv(s) && Extends(s, id, r, s') && x in s'.recs
    ensures Listed(s', x)
  {
    if x != id {
      assert Listed(s, x);
    }
  }

  /** Every execution but the tail of its chain has been replayed, so it is final. */
  lemma NonTailReplayed(s: State, k: Key, i: nat)
    requires ChainInv(s) && k in s.chains && i + 1 < |s.chains[k]| && "" !in s.recs
    ensures s.chains[k][i] in s.replayed && s.chains[k][i] in s.recs && IsFinal(StatusOf(s.recs, s.chains[k][i]))
  {
    var ch := s.chains[k];
    assert ChainOk(s, k) && LinkOk(s, k, ch, i) && LinkOk(s, k, ch, i + 1);
    assert Listed(s, ch[i + 1]);
    assert ReplayedOk(s, ch[i]);
  }

  /** An execution not yet replayed is the tail of its key's chain. */
  lemma UnreplayedIsTail(s: State, y: Id)
    requires ChainInv(s) && "" !in s.recs && y in s.recs && y !in s.replayed && s.recs[y].task.businessKey != ""
    ensures HasChain(s, s.recs[y].task.businessKey) && Tail(s, s.recs[y].task.businessKey) == y
  {
    var k := s.recs[y].task.businessKey;
    assert Listed(s, y);
    var i :| 0 <= i < |s.chains[k]| && s.chains[k][i] == y;
    if i + 1 < |s.chains[k]| {
      NonTailReplayed(s, k, i);
    }
  }

  lemma ChainLonger(s: State, id: Id, r: Rec, s': State, j: Key)
    requires ChainInv(s) && Extends(s, id, r, s') && j in s'.chains
    ensures ChainOk(s', j)
  {
    var k, y := r.task.businessKey, r.task.replayOf;
    if j in s.chains { assert ChainOk(s, j); }
    if j == k && y != "" { UnreplayedIsTail(s, y); }
    forall i | 0 <= i < |s'.chains[j]| ensures LinkOk(s', j, s'.chains[j], i) {
      if j in s.chains && i < |s.chains[j]| {
        assert LinkOk(s, j, s.chains[j], i);
      }
    }
    if j in s.chains {
      assert id !in s.chains[j] by {
        forall i | 0 <= i < |s.chains[j]| ensures s.chains[j][i] != id {
          assert LinkOk(s, j, s.chains[j], i);
        }
      }
    }
  }

  /** A replayed execution of a key is followed by another one. */
  lemma ReplayedNotLast(s: State, k: Key, y: Id)
    requires ChainInv(s) && "" !in s.recs && k in s.chains && y in s.replayed && y in s.recs
             && s.recs[y].task.businessKey == k
    ensures y in s.chains[k][..|s.chains[k]| - 1]
  {
    var ch := s.chains[k];
    assert ChainOk(s, k) && ReplayedOk(s, y);
    var x :| Replays(s, x, y);
    assert Listed(s, x);
    var i :| 0 <= i < |ch| && ch[i] == x;
    assert LinkOk(s, k, ch, i);
    assert ch[..|ch| - 1][i - 1] == y;
  }

  /** The tail of a chain has not been replayed. */
  lemma TailUnreplayed(s: State, k: Key)
    requires Inv(s) && HasChain(s, k)
    ensures Tail(s, k) in s.recs && Tail(s, k) !in s.replayed
  {
    NoEmptyId(s);
    var last := |s.chains[k]| - 1;
    assert ChainOk(s, k) && LinkOk(s, k, s.chains[k], last);
    if Tail(s, k) in s.replayed {
      ReplayedNotLast(s, k, Tail(s, k));
    }
  }

  lemma NoEmptyId(s: State)
    requires Inv(s)
    ensures "" !in s.recs
  {
    forall x | x in s.recs ensures x != "" {
      assert RecOk(x, s.recs[x]);
    }
  }

  // ---- preservation ----

  lemma StepOthers(c: Config, s: State, op: Op, s': State, reply: Reply)
    requires Step(c, s, op, s', reply) && !op.OpEnqueue? && !op.OpReplay?
    ensures s'.chains == s.chains && s'.replayed == s.replayed && s'.recs.Keys == s.recs.Keys
  {
    hide Doomed;
  }

  lemma InvOthers(c: Config, s: State, op: Op, s': State, reply: Reply)
    requires Inv(s) && Step(c, s, op, s', reply) && !op.OpEnqueue? && !op.OpReplay?
    ensures Inv(s')
  {
    hide Step, Evolves, GraphInv, ChainInv, RecOk, SameIdentity;
    StepGraph(c, s, op, s', reply);
    StepEvolves(c, s, op, s', reply);
    StepOthers(c, s, op, s', reply);
    forall x | x in s.recs
      ensures RecOk(x, s'.recs[x]) && SameIdentity(s.recs[x].task, s'.recs[x].task)
      ensures IsFinal(StatusOf(s.recs, x)) ==> s'.recs[x] == s.recs[x]
    {
      EvolvesKeeps(c, op, x, s.recs[x], s'.recs[x]);
    }
    ChainKept(s, s');
  }

  lemma InvEnqueue(s: State, t: Task, gen: Id, now: int, s': State, reply: Reply)
    requires Inv(s) && gen != "" && gen !in s.recs && EnqueueStep(s, t, gen, now, s', reply)
    ensures Inv(s')
  {
    EnqueueEffects(s, t, gen, now, s', reply);
    if Submittable(s, t) {
      var id := if t.id != "" then t.id else gen;
      NewRecOk(s, t, id, now, s'.recs[id]);
      NoEmptyId(s);
      ExtendSubmitted(s, t, id, now, s');
      ChainExtended(s, id, s'.recs[id], s');
    }
  }

  lemma NewRecOk(s: State, t: Task, id: Id, now: int, r: Rec)
    requires id != "" && Submitted(s.recs, t, id, now, r)
    ensures RecOk(id, r) && r.task.businessKey == t.businessKey && r.task.replayOf == t.replayOf
            && r.task.dependsOn == t.dependsOn
    ensures r.task.attempts == t.attempts && r.task.throttled == t.throttled && r.task.leaseLost == t.leaseLost
    ensures r.task.maxRetry == t.maxRetry && !r.task.status.Running? && !r.cancelRequested
  {
    InitialPolicy(s.recs, ParentSet(t.dependsOn), t.policy);
  }

  lemma ExtendSubmitted(s: State, t: Task, id: Id, now: int, s': State)
    requires Submittable(s, t) && id != "" && id !in s.recs && "" !in s.recs && id in s'.recs
    requires s' == s.(recs := s.recs[id := s'.recs[id]], chains := Appended(s.chains, t.businessKey, id))
    requires s'.recs[id].task.id == id && s'.recs[id].task.businessKey == t.businessKey
             && s'.recs[id].task.replayOf == t.replayOf
    ensures Extends(s, id, s'.recs[id], s')
  {}

  lemma InvReplay(s: State, req: ReplayRequest, gen: Id, now: int, s': State, reply: Reply)
    requires Inv(s) && gen != "" && gen !in s.recs && ReplayStep(s, req, gen, now, s', reply)
    ensures Inv(s')
  {
    ReplayEffects(s, req, gen, now, s', reply);
    if ReplayError(s, req).None? {
      var target := ReplayTarget(s, req).value;
      NoEmptyId(s);
      assert RecOk(target, s.recs[target]);
      assert Extends(s, gen, s'.recs[gen], s');
      ChainExtended(s, gen, s'.recs[gen], s');
    }
  }

  /** Every operation keeps the invariant. */
  lemma StepInv(c: Config, s: State, op: Op, s': State, reply: Reply)
    requires Inv(s) && Step(c, s, op, s', reply)
    ensures Inv(s')
  {
    hide Inv;
    match op
    case OpEnqueue(t, gen, now) => InvEnqueue(s, t, gen, now, s', reply);
    case OpReplay(req, gen, now) => InvReplay(s, req, gen, now, s', reply);
    case _ => InvOthers(c, s, op, s', reply);
  }
}
