/** What a task reaching a final status does to the tasks that depend on it. */
module Cascade {
  import opened Model
  import opened Deps

  /** A task that a dead parent cancels outright: fail-fast and not yet claimed. */
  predicate Doomable(r: Rec) {
    !r.task.policy.IgnoreParentFail? && (r.task.status.Blocked? || r.task.status.Pending? || r.task.status.Retrying?)
  }

  /** The record after a cancellation: final fields written, lease cleared. */
  function CanceledRec(r: Rec, why: ErrText, now: int): Rec {
    r.(task := r.task.(status := Canceled, lastError := why, finishedAt := now, leaseToken := ""), leaseUntil := 0)
  }

  /** One child hearing from one parent that reached `ps`. */
  function VisitChild(parent: Id, ps: Status, c: Rec, now: int): Rec {
    var (left, action) := DecideOnParentFinal(ps, c.task.status, c.task.policy, c.pendingParents);
    var c1 := c.(pendingParents := left);
    match action
    case ChildNone => c1
    case ChildWake => if CanTransition(c.task.status, Pending) then c1.(task := c1.task.(status := Pending)) else c1
    case ChildCancel =>
      if c.task.status.Running? then c1.(cancelRequested := true)
      else if CanTransition(c.task.status, Canceled) then CanceledRec(c1, ParentFailureReason(parent, ps), now)
      else c1
  }

  // ---------------------------------------------------------------------------------------------
  // The order-free description
  // ---------------------------------------------------------------------------------------------

  /** n satisfied parents have reported: the count drops by n but not below zero; reaching zero wakes a blocked task. */
  function Counted(r: Rec, n: nat): Rec {
    var left: nat := if r.pendingParents > n then r.pendingParents - n else 0;
    if n > 0 && left == 0 && r.task.status.Blocked?
    then r.(pendingParents := left, task := r.task.(status := Pending))
    else r.(pendingParents := left)
  }

  ghost predicate DeadRoots(pre: Recs, roots: set<Id>) {
    forall x :: x in roots ==> x in pre && Dead(StatusOf(pre, x))
  }

  /** The roots of one cascade are final, and either all dead or all completed. */
  ghost predicate Rooted(pre: Recs, roots: set<Id>) {
    (forall x :: x in roots ==> x in pre && IsFinal(StatusOf(pre, x)))
    && (DeadRoots(pre, roots) || forall x :: x in roots ==> x in pre && StatusOf(pre, x).Completed?)
  }

  ghost predicate Deadly(pre: Recs, roots: set<Id>, doomed: set<Id>, p: Id) {
    (p in roots && DeadRoots(pre, roots)) || p in doomed
  }

  /** doomed contains every doomable task with a dead root or a doomed task among its parents. */
  ghost predicate Closed(pre: Recs, roots: set<Id>, doomed: set<Id>) {
    forall c, p :: (c in pre && Doomable(pre[c]) && p in Parents(pre[c]) && Deadly(pre, roots, doomed, p)) ==>
      c in doomed
  }

  /** The least closed set: the tasks the cascade must cancel. */
  ghost function Doomed(pre: Recs, roots: set<Id>): set<Id> {
    set c | c in pre && forall d: set<Id> :: Closed(pre, roots, d) ==> c in d
  }

  ghost function FinalStatus(pre: Recs, roots: set<Id>, p: Id): Status {
    if p in roots && p in pre then StatusOf(pre, p) else Canceled
  }

  ghost predicate NamesOne(pre: Recs, roots: set<Id>, told: set<Id>, e: ErrText) {
    exists p :: p in told && e == ParentFailureReason(p, FinalStatus(pre, roots, p))
  }

  /** What becomes of record r of one task when exactly the parents in `told` have reported to it. */
  ghost predicate Told(pre: Recs, roots: set<Id>, dead: bool, gone: bool, told: set<Id>, now: int, r: Rec, r': Rec) {
    if gone then
      dead && Doomable(r) && NamesOne(pre, roots, told, r'.task.lastError)
      && r' == CanceledRec(r, r'.task.lastError, now)
    else if IsFinal(r.task.status) then r' == r
    else if dead && !r.task.policy.IgnoreParentFail? then
      if r.task.status.Running? then r' == r.(cancelRequested := r.cancelRequested || told != {})
      else told == {} && r' == r
    else r' == Counted(r, |told|)
  }

  /** Every task has heard from exactly those of its parents that are roots or in `gone`, and `gone` are the
      canceled ones. */
  ghost predicate Settled(pre: Recs, roots: set<Id>, gone: set<Id>, now: int, post: Recs) {
    post.Keys == pre.Keys && gone <= pre.Keys
    && forall c :: c in pre ==>
         Told(pre, roots, DeadRoots(pre, roots), c in gone, Parents(pre[c]) * (roots + gone), now, pre[c], post[c])
  }

  /** The exact result of a cascade from `roots`: the least doomed set is canceled, everyone else is counted
      or woken. */
  ghost predicate Outcome(pre: Recs, roots: set<Id>, now: int, post: Recs) {
    Settled(pre, roots, Doomed(pre, roots), now, post)
  }

  lemma DoomedClosed(pre: Recs, roots: set<Id>)
    ensures Closed(pre, roots, Doomed(pre, roots))
  {
    var d0 := Doomed(pre, roots);
    forall c, p | c in pre && Doomable(pre[c]) && p in Parents(pre[c]) && Deadly(pre, roots, d0, p)
      ensures c in d0
    {
      forall d: set<Id> | Closed(pre, roots, d) ensures c in d {
        assert Deadly(pre, roots, d, p);
      }
    }
  }

  lemma DoomedLeast(pre: Recs, roots: set<Id>, d: set<Id>)
    requires Closed(pre, roots, d)
    ensures Doomed(pre, roots) <= d
  {}

  /** Everything but the parent named in LastError. */
  ghost predicate SameButReason(a: Rec, b: Rec) {
    b == a.(task := a.task.(lastError := b.task.lastError))
  }

  /** A chain of dependencies from a root through tasks that a dead parent cancels. */
  ghost predicate DoomPath(pre: Recs, roots: set<Id>, path: seq<Id>) {
    |path| >= 2 && path[0] in roots
    && forall i :: 1 <= i < |path| ==> path[i] in pre && Doomable(pre[path[i]]) && path[i - 1] in Parents(pre[path[i]])
  }

  ghost predicate ReachedBy(pre: Recs, roots: set<Id>, path: seq<Id>, c: Id) {
    DoomPath(pre, roots, path) && path[|path| - 1] == c
  }

  lemma {:induction false} PathForced(pre: Recs, roots: set<Id>, path: seq<Id>, d: set<Id>)
    requires DeadRoots(pre, roots) && DoomPath(pre, roots, path) && Closed(pre, roots, d)
    ensures path[|path| - 1] in d
  {
    var n := |path| - 1;
    if n > 1 {
      var init := path[..n];
      assert forall i :: 0 <= i < |init| ==> init[i] == path[i];
      PathForced(pre, roots, init, d);
    }
    assert Deadly(pre, roots, d, path[n - 1]);
  }

  /** The tasks a cascade cancels are exactly those reachable from a dead root through waiting fail-fast tasks; from a
      completed root there are none. */
  lemma DoomedReachable(pre: Recs, roots: set<Id>, c: Id)
    ensures DeadRoots(pre, roots) ==> (c in Doomed(pre, roots) <==> exists path :: ReachedBy(pre, roots, path, c))
    ensures !DeadRoots(pre, roots) ==> Doomed(pre, roots) == {}
  {
    if DeadRoots(pre, roots) {
      var reached := set x | x in pre && exists path :: ReachedBy(pre, roots, path, x);
      forall x, p | x in pre && Doomable(pre[x]) && p in Parents(pre[x]) && Deadly(pre, roots, reached, p)
        ensures x in reached
      {
        Extended(pre, roots, reached, x, p);
      }
      assert Closed(pre, roots, reached);
      DoomedLeast(pre, roots, reached);
      if exists path :: ReachedBy(pre, roots, path, c) {
        var path :| ReachedBy(pre, roots, path, c);
        forall d: set<Id> | Closed(pre, roots, d) ensures c in d {
          PathForced(pre, roots, path, d);
        }
      }
    } else {
      assert Closed(pre, roots, {});
      DoomedLeast(pre, roots, {});
    }
  }

  lemma Extended(pre: Recs, roots: set<Id>, reached: set<Id>, x: Id, p: Id)
    requires DeadRoots(pre, roots) && reached == set y | y in pre && exists path :: ReachedBy(pre, roots, path, y)
    requires x in pre && Doomable(pre[x]) && p in Parents(pre[x]) && Deadly(pre, roots, reached, p)
    ensures exists path :: ReachedBy(pre, roots, path, x)
  {
    if p in roots {
      assert ReachedBy(pre, roots, [p, x], x);
    } else {
      var path :| ReachedBy(pre, roots, path, p);
      assert ReachedBy(pre, roots, path + [x], x);
    }
  }
}
