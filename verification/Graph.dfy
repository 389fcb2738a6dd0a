/** The dependency invariant, and why ending tasks and settling their dependents keeps it. */
module Graph {
  import opened Model
  import opened Deps
  import opened Cascade
  import opened Spec
  import opened Wiring

  /** Unless canceled, a task waits exactly while some parent is unfinished, its count is the number of distinct
      unfinished parents, and under fail-fast no parent is dead. */
  ghost predicate NodeOk(recs: Recs, c: Id)
    requires c in recs
  {
    var r, w := recs[c], Waiting(recs, Parents(recs[c]));
    r.task.status.Canceled?
    || ((r.task.status.Blocked? ==> w != {} && r.pendingParents == |w|)
        && (!r.task.status.Blocked? ==> w == {})
        && (!r.task.policy.IgnoreParentFail? ==> !AnyDead(recs, Parents(r))))
  }

  ghost predicate GraphInv(recs: Recs) {
    ParentsPresent(recs) && forall c :: c in recs ==> NodeOk(recs, c)
  }

  /** pre differs from pre0 only in tasks that have just ended (the roots) or left a running lease. */
  ghost predicate Ending(pre0: Recs, pre: Recs, roots: set<Id>) {
    pre.Keys == pre0.Keys && Rooted(pre, roots)
    && (forall c :: c in roots ==>
        !IsFinal(StatusOf(pre0, c)) && (StatusOf(pre0, c).Blocked? ==> StatusOf(pre, c).Canceled?))
    && (forall c :: c in pre0 ==> SameShape(pre0[c], pre[c]) && (c !in roots ==> SameStage(pre0[c], pre[c])))
  }

  predicate SameShape(a: Rec, b: Rec) {
    b.task.dependsOn == a.task.dependsOn && b.task.policy == a.task.policy && b.pendingParents == a.pendingParents
  }

  predicate Unblocked(s: Status) {
    !IsFinal(s) && !s.Blocked?
  }

  predicate SameStage(a: Rec, b: Rec) {
    b == a || (Unblocked(a.task.status) && Unblocked(b.task.status))
  }

  ghost function Heard(pre: Recs, roots: set<Id>, gone: set<Id>, c: Id): set<Id>
    requires c in pre
  {
    Parents(pre[c]) * (roots + gone)
  }

  ghost predicate SettledAt(pre: Recs, roots: set<Id>, gone: set<Id>, now: int, post: Recs, c: Id)
    requires c in pre && c in post
  {
    Told(pre, roots, DeadRoots(pre, roots), c in gone, Heard(pre, roots, gone, c), now, pre[c], post[c])
  }

  lemma SettledOne(pre: Recs, roots: set<Id>, gone: set<Id>, now: int, post: Recs, c: Id)
    requires Settled(pre, roots, gone, now, post) && c in pre
    ensures c in post && SettledAt(pre, roots, gone, now, post, c)
  {
    hide Told;
  }

  /** How a status can move when parents report. */
  lemma ToldStatus(pre: Recs, roots: set<Id>, dead: bool, gone: bool, told: set<Id>, now: int, r: Rec, r': Rec)
    requires Told(pre, roots, dead, gone, told, now, r, r')
    ensures gone ==> dead && !IsFinal(r.task.status) && r'.task.status.Canceled?
    ensures IsFinal(r.task.status) ==> r' == r
    ensures !gone && !IsFinal(r.task.status) ==> !IsFinal(r'.task.status)
    ensures r'.task.dependsOn == r.task.dependsOn
  {
    hide NamesOne;
  }

  /** Nobody reported: nothing happens. */
  lemma ToldNothing(pre: Recs, roots: set<Id>, dead: bool, gone: bool, now: int, r: Rec, r': Rec)
    requires Told(pre, roots, dead, gone, {}, now, r, r')
    ensures !gone && r' == r
  {}

  lemma ToldUnheard(pre: Recs, roots: set<Id>, dead: bool, now: int, r: Rec)
    ensures Told(pre, roots, dead, false, {}, now, r, r)
  {}

  lemma ToldFrame(a: Recs, b: Recs, roots: set<Id>, dead: bool, gone: bool, told: set<Id>, now: int, r: Rec, r': Rec)
    requires Told(a, roots, dead, gone, told, now, r, r')
    requires forall p :: p in roots ==> p in a && p in b && b[p] == a[p]
    ensures Told(b, roots, dead, gone, told, now, r, r')
  {
    if gone {
      var p :| p in told && r'.task.lastError == ParentFailureReason(p, FinalStatus(a, roots, p));
      assert NamesOne(b, roots, told, r'.task.lastError);
    }
  }

  /** A cascade never ends or extends a running lease, and never takes a cancel mark away. */
  lemma RunningKept(pre: Recs, root: Id, now: int, post: Recs, x: Id)
    requires Outcome(pre, {root}, now, post) && x in pre && pre[x].task.status.Running?
    ensures x in post && post[x].task.status.Running? && post[x].leaseUntil == pre[x].leaseUntil
    ensures pre[x].cancelRequested ==> post[x].cancelRequested
  {
    hide Doomed, NamesOne;
    SettledOne(pre, {root}, Doomed(pre, {root}), now, post, x);
  }

  /** Exactly the roots and the canceled become final. */
  lemma FinalAfter(pre0: Recs, pre: Recs, roots: set<Id>, gone: set<Id>, now: int, post: Recs, p: Id)
    requires Ending(pre0, pre, roots) && Settled(pre, roots, gone, now, post) && p in pre0
    ensures IsFinal(StatusOf(post, p)) <==> IsFinal(StatusOf(pre0, p)) || p in roots + gone
    ensures p in roots + gone ==> !IsFinal(StatusOf(pre0, p))
    ensures p in roots + gone ==> Dead(StatusOf(post, p)) == DeadRoots(pre, roots)
    ensures IsFinal(StatusOf(pre0, p)) ==> StatusOf(post, p) == StatusOf(pre0, p)
  {
    hide Told, Parents;
    SettledOne(pre, roots, gone, now, post, p);
    ToldStatus(pre, roots, DeadRoots(pre, roots), p in gone, Heard(pre, roots, gone, p), now, pre[p], post[p]);
  }

  lemma WaitingAfter(pre0: Recs, pre: Recs, roots: set<Id>, gone: set<Id>, now: int, post: Recs, c: Id)
    requires Ending(pre0, pre, roots) && Settled(pre, roots, gone, now, post) && c in pre0 && ParentsPresent(pre0)
    ensures var w := Waiting(pre0, Parents(pre0[c]));
            Heard(pre, roots, gone, c) <= w && Waiting(post, Parents(pre0[c])) == w - Heard(pre, roots, gone, c)
  {
    forall p | p in Parents(pre0[c])
      ensures p in Heard(pre, roots, gone, c) ==> p in Waiting(pre0, Parents(pre0[c]))
      ensures p in Waiting(post, Parents(pre0[c])) <==>
              p in Waiting(pre0, Parents(pre0[c])) && p !in Heard(pre, roots, gone, c)
    {
      FinalAfter(pre0, pre, roots, gone, now, post, p);
    }
  }

  lemma DeadAfter(pre0: Recs, pre: Recs, roots: set<Id>, gone: set<Id>, now: int, post: Recs, c: Id)
    requires Ending(pre0, pre, roots) && Settled(pre, roots, gone, now, post) && c in pre0 && ParentsPresent(pre0)
    requires !AnyDead(pre0, Parents(pre0[c]))
    requires Heard(pre, roots, gone, c) == {} || !DeadRoots(pre, roots)
    ensures !AnyDead(post, Parents(pre0[c]))
  {
    forall p | p in Parents(pre0[c]) && p in post ensures !Dead(StatusOf(post, p)) {
      FinalAfter(pre0, pre, roots, gone, now, post, p);
      if p in roots + gone {
        assert p in Heard(pre, roots, gone, c);
      }
    }
  }

  /** A task that hears of an ending parent was blocked, or had been canceled before. */
  lemma HeardBlocked(pre0: Recs, pre: Recs, roots: set<Id>, gone: set<Id>, now: int, post: Recs, c: Id)
    requires GraphInv(pre0) && Ending(pre0, pre, roots) && Settled(pre, roots, gone, now, post) && c in pre0
    ensures Heard(pre, roots, gone, c) == {} || StatusOf(pre0, c).Blocked? || StatusOf(pre0, c).Canceled?
  {
    WaitingAfter(pre0, pre, roots, gone, now, post, c);
    assert NodeOk(pre0, c);
  }

  lemma {:induction false} CardMinus(a: set<Id>, b: set<Id>)
    requires b <= a
    ensures |a - b| == |a| - |b|
  {
    assert (a - b) + b == a;
  }

  lemma NodeAfter(pre0: Recs, pre: Recs, roots: set<Id>, gone: set<Id>, now: int, post: Recs, c: Id)
    requires GraphInv(pre0) && Ending(pre0, pre, roots) && Settled(pre, roots, gone, now, post) && c in pre0
    ensures NodeOk(post, c)
  {
    var heard := Heard(pre, roots, gone, c);
    var w := Waiting(pre0, Parents(pre0[c]));
    HeardBlocked(pre0, pre, roots, gone, now, post, c);
    WaitingAfter(pre0, pre, roots, gone, now, post, c);
    CardMinus(w, heard);
    if !pre0[c].task.policy.IgnoreParentFail? && !AnyDead(pre0, Parents(pre0[c]))
       && (heard == {} || !DeadRoots(pre, roots)) {
      DeadAfter(pre0, pre, roots, gone, now, post, c);
    }
    NodeSettled(pre0[c], pre[c], post[c], c in roots, c in gone, pre, roots, heard, now, w, pre0, post, c);
  }

  /** The case analysis behind NodeAfter, on one record. */
  lemma NodeSettled(r0: Rec, r: Rec, r': Rec, root: bool, gone: bool, pre: Recs, roots: set<Id>, heard: set<Id>,
                    now: int, w: set<Id>, pre0: Recs, post: Recs, c: Id)
    requires c in pre0 && r0 == pre0[c] && c in post && r' == post[c]
    requires NodeOk(pre0, c) && w == Waiting(pre0, Parents(r0))
    requires SameShape(r0, r) && (!root ==> SameStage(r0, r))
    requires root ==>
             IsFinal(r.task.status) && !IsFinal(r0.task.status) && (r0.task.status.Blocked? ==> r.task.status.Canceled?)
    requires Told(pre, roots, DeadRoots(pre, roots), gone, heard, now, r, r')
    requires heard == {} || r0.task.status.Blocked? || r0.task.status.Canceled?
    requires heard <= w && |w - heard| == |w| - |heard| && Waiting(post, Parents(r0)) == w - heard
    requires !r0.task.policy.IgnoreParentFail? && !AnyDead(pre0, Parents(r0)) && (heard == {} || !DeadRoots(pre, roots))
             ==> !AnyDead(post, Parents(r0))
    ensures NodeOk(post, c)
  {
    hide Waiting, AnyDead, Told, DeadRoots;
    var dead := DeadRoots(pre, roots);
    ToldStatus(pre, roots, dead, gone, heard, now, r, r');
    assert Parents(r') == Parents(r0);
    if !gone {
      if heard == {} {
        ToldNothing(pre, roots, dead, gone, now, r, r');
        assert w - heard == w;
      } else if !IsFinal(r.task.status) {
        assert |heard| > 0 && (w - heard == {} <==> |w - heard| == 0);
        ToldCounted(pre, roots, dead, heard, now, r, r', |w|);
      }
    }
  }

  /** A blocked record with an exact count n, told by some of its parents and not canceled. */
  lemma ToldCounted(pre: Recs, roots: set<Id>, dead: bool, told: set<Id>, now: int, r: Rec, r': Rec, n: nat)
    requires Told(pre, roots, dead, false, told, now, r, r') && r.task.status.Blocked? && r.pendingParents == n
    requires told != {} && |told| <= n
    ensures dead ==> r.task.policy.IgnoreParentFail?
    ensures r'.task.policy == r.task.policy
    ensures if |told| == n then r'.task.status.Pending? else r'.task.status.Blocked? && r'.pendingParents == n - |told|
  {
    assert |told| > 0;
  }

  /** Ending tasks and settling their dependents keeps every blocked count exact. */
  lemma GraphKept(pre0: Recs, pre: Recs, roots: set<Id>, gone: set<Id>, now: int, post: Recs)
    requires GraphInv(pre0) && Ending(pre0, pre, roots) && Settled(pre, roots, gone, now, post)
    ensures GraphInv(post)
  {
    hide NodeOk, Told, Parents, Rooted;
    forall c | c in post ensures NodeOk(post, c) && Parents(post[c]) <= post.Keys {
      NodeAfter(pre0, pre, roots, gone, now, post, c);
      ParentsAfter(pre0, pre, roots, gone, now, post, c);
    }
  }

  lemma ParentsAfter(pre0: Recs, pre: Recs, roots: set<Id>, gone: set<Id>, now: int, post: Recs, c: Id)
    requires Ending(pre0, pre, roots) && Settled(pre, roots, gone, now, post) && c in pre0
    ensures Parents(post[c]) == Parents(pre0[c])
  {
    hide Told, Rooted;
    SettledOne(pre, roots, gone, now, post, c);
    ToldStatus(pre, roots, DeadRoots(pre, roots), c in gone, Heard(pre, roots, gone, c), now, pre[c], post[c]);
  }

  /** A step that ends nothing settles trivially. */
  lemma SettledIdle(pre: Recs, now: int)
    ensures Settled(pre, {}, {}, now, pre)
  {
    forall c | c in pre
      ensures Told(pre, {}, DeadRoots(pre, {}), c in {}, Parents(pre[c]) * ({} + {}), now, pre[c], pre[c])
    {
      assert Parents(pre[c]) * ({} + {}) == {};
    }
  }

  /** Replacing one record by another that neither blocks, ends nor rewires the task. */
  lemma GraphPlain(recs: Recs, id: Id, r: Rec)
    requires GraphInv(recs) && id in recs && SameShape(recs[id], r) && SameStage(recs[id], r)
    ensures GraphInv(recs[id := r])
  {
    hide GraphInv, Settled, NodeOk;
    SettledIdle(recs[id := r], 0);
    GraphKept(recs, recs[id := r], {}, {}, 0, recs[id := r]);
  }

  /** A new task in its initial status; nothing depends on it yet. */
  lemma GraphAdded(recs: Recs, id: Id, r: Rec)
    requires GraphInv(recs) && id !in recs && Parents(r) <= recs.Keys
    requires r.task.status == InitialStatus(recs, Parents(r), r.task.policy)
    requires r.task.status.Blocked? ==> r.pendingParents == |Waiting(recs, Parents(r))|
    ensures GraphInv(recs[id := r])
  {
    hide InitialStatus;
    var recs' := recs[id := r];
    forall c | c in recs' ensures NodeOk(recs', c) && Parents(recs'[c]) <= recs'.Keys {
      NodeAdded(recs, id, r, c);
    }
  }

  lemma NodeAdded(recs: Recs, id: Id, r: Rec, c: Id)
    requires GraphInv(recs) && id !in recs && Parents(r) <= recs.Keys
    requires r.task.status == InitialStatus(recs, Parents(r), r.task.policy)
    requires r.task.status.Blocked? ==> r.pendingParents == |Waiting(recs, Parents(r))|
    requires c in recs || c == id
    ensures NodeOk(recs[id := r], c) && Parents(recs[id := r][c]) <= recs[id := r].Keys
  {
    var recs' := recs[id := r];
    var ps := Parents(recs'[c]);
    assert ps <= recs.Keys;
    assert Waiting(recs', ps) == Waiting(recs, ps);
    assert AnyDead(recs', ps) == AnyDead(recs, ps) by {
      assert forall p :: p in ps ==> recs'[p] == recs[p];
    }
    if c in recs {
      assert NodeOk(recs, c);
    }
  }
}
