/** Statuses and parents read straight from the records, without the functions the steps are built from. */
module Plain {
  import opened Model
  import opened Deps
  import opened Spec

  /** Not ended yet, in any way. */
  predicate Open(s: Status) {
    s == Blocked || s == Pending || s == Running || s == Retrying
  }

  /** e names a parent of deps that failed or was canceled, and which of the two. */
  ghost predicate NamesDeadParent(recs: Recs, deps: seq<Id>, e: ErrText) {
    exists p :: p in deps && p in recs
                && if recs[p].task.status == Failed then e == ParentFailed(p)
                   else recs[p].task.status == Canceled && e == ParentCanceled(p)
  }

  ghost predicate HasDeadParent(recs: Recs, deps: seq<Id>) {
    exists p :: p in deps && p in recs && (recs[p].task.status == Failed || recs[p].task.status == Canceled)
  }

  ghost function OpenParents(recs: Recs, deps: seq<Id>): set<Id> {
    set p | p in deps && p in recs && Open(recs[p].task.status)
  }

  lemma OpenPlain(recs: Recs, deps: seq<Id>)
    ensures Waiting(recs, ParentSet(deps)) == OpenParents(recs, deps)
  {}

  lemma DeadPlain(recs: Recs, deps: seq<Id>)
    ensures AnyDead(recs, ParentSet(deps)) <==> HasDeadParent(recs, deps)
  {
    if AnyDead(recs, ParentSet(deps)) {
      var p :| p in ParentSet(deps) && p in recs && Dead(StatusOf(recs, p));
      assert p in deps && (recs[p].task.status == Failed || recs[p].task.status == Canceled);
    }
    if HasDeadParent(recs, deps) {
      var p :| p in deps && p in recs && (recs[p].task.status == Failed || recs[p].task.status == Canceled);
      assert p in ParentSet(deps);
    }
  }

  /** What the decision on a task's parents says. */
  lemma DecisionPlain(recs: Recs, deps: seq<Id>, policy: Policy, status: Status, count: nat)
    requires status == InitialStatus(recs, ParentSet(deps), policy)
    requires status != Canceled ==> count == |Waiting(recs, ParentSet(deps))|
    ensures status == Canceled <==> policy != IgnoreParentFail && HasDeadParent(recs, deps)
    ensures status != Canceled ==>
              count == |OpenParents(recs, deps)| && (status == Pending <==> OpenParents(recs, deps) == {})
  {
    OpenPlain(recs, deps);
    DeadPlain(recs, deps);
  }

  lemma NamedPlain(recs: Recs, names: seq<Id>, deps: seq<Id>, e: ErrText)
    requires NamesDead(recs, names, e) && ParentSet(names) == ParentSet(deps)
    ensures NamesDeadParent(recs, deps, e)
  {
    FirstOf(recs, names);
    var p := FirstDead(recs, names).value;
    assert p in ParentSet(names);
    assert p in deps;
  }
}
