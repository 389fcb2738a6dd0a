/** The reverse dependency index and the other references a broker follows. */
module Wiring {
  import opened Model
  import opened Deps
  import opened Cascade
  import opened CascadeLoop
  import opened Spec

  /** children lists exactly the tasks that depend on each task, each once. */
  ghost predicate IndexExact(recs: Recs, children: map<Id, seq<Id>>) {
    children.Keys == recs.Keys
    && forall p :: p in children ==> NoDup(children[p]) && forall c :: c in children[p] <==> ChildOf(recs, p, c)
  }

  ghost predicate ChildOf(recs: Recs, p: Id, c: Id) {
    c in recs && p in Parents(recs[c])
  }

  ghost predicate ParentsPresent(recs: Recs) {
    forall c :: c in recs ==> Parents(recs[c]) <= recs.Keys
  }

  ghost predicate ChainsKnown(recs: Recs, chains: map<Key, seq<Id>>) {
    forall k, x :: k in chains && x in chains[k] ==> x in recs
  }

  lemma QueueBounded(pre: Recs, root: Id, queue: seq<Id>)
    requires WorkListOk(pre, root, queue)
    ensures |queue| <= |pre|
  {
    NoDupLength(queue, pre.Keys);
  }

  lemma ChildFresh(recs: Recs, children: map<Id, seq<Id>>, p: Id, i: nat)
    requires IndexExact(recs, children) && p in children && i < |children[p]|
    ensures ChildOf(recs, p, children[p][i])
    ensures children[p][i] !in Elems(children[p][..i])
    ensures Elems(children[p][..i + 1]) == Elems(children[p][..i]) + {children[p][i]}
  {
    assert children[p][i] in children[p];
    assert children[p][..i + 1] == children[p][..i] + [children[p][i]];
  }

  lemma AllChildren(recs: Recs, children: map<Id, seq<Id>>, p: Id)
    requires IndexExact(recs, children) && p in children
    ensures forall c :: c in recs && p in Parents(recs[c]) ==> c in Elems(children[p][..|children[p]|])
  {
    assert children[p][..|children[p]|] == children[p];
    forall c | c in recs && p in Parents(recs[c]) ensures c in children[p] {
      assert ChildOf(recs, p, c);
    }
  }

  /** Same tasks with the same parents. */
  ghost predicate SameDeps(a: Recs, b: Recs) {
    b.Keys == a.Keys && forall c :: c in a ==> b[c].task.dependsOn == a[c].task.dependsOn
  }

  lemma WiringKept(a: Recs, b: Recs, children: map<Id, seq<Id>>)
    requires SameDeps(a, b) && IndexExact(a, children) && ParentsPresent(a)
    ensures IndexExact(b, children) && ParentsPresent(b)
  {
    forall c | c in a ensures Parents(b[c]) == Parents(a[c]) {}
    forall p | p in children ensures NoDup(children[p]) && forall c :: c in children[p] <==> ChildOf(b, p, c) {
      forall c ensures c in children[p] <==> ChildOf(b, p, c) {
        assert c in children[p] <==> ChildOf(a, p, c);
      }
    }
  }

  lemma OutcomeSameDeps(pre: Recs, roots: set<Id>, now: int, post: Recs)
    requires Outcome(pre, roots, now, post)
    ensures SameDeps(pre, post)
  {
    forall c | c in pre ensures post[c].task.dependsOn == pre[c].task.dependsOn {
      assert Told(pre, roots, DeadRoots(pre, roots), c in Doomed(pre, roots),
                  Parents(pre[c]) * (roots + Doomed(pre, roots)), now, pre[c], post[c]);
    }
  }

  /** A new task with no children of its own, registered under the parents ps. */
  ghost function WithChild(children: map<Id, seq<Id>>, ps: set<Id>, id: Id): map<Id, seq<Id>> {
    map p | p in children :: if p in ps then children[p] + [id] else children[p]
  }

  lemma WithChildStep(children: map<Id, seq<Id>>, ps: set<Id>, id: Id, p: Id)
    requires p in children
    ensures p !in ps ==>
              WithChild(children, ps, id)[p := WithChild(children, ps, id)[p] + [id]] ==
              WithChild(children, ps + {p}, id)
    ensures p in ps ==> ps + {p} == ps
  {
    if p !in ps {
      var m := WithChild(children, ps, id)[p := WithChild(children, ps, id)[p] + [id]];
      assert m.Keys == children.Keys;
    }
  }

  lemma IndexAfterEnqueue(recs: Recs, children: map<Id, seq<Id>>, id: Id, r: Rec)
    requires IndexExact(recs, children) && ParentsPresent(recs) && id !in recs && Parents(r) <= recs.Keys
    ensures IndexExact(recs[id := r], WithChild(children[id := []], Parents(r), id))
    ensures ParentsPresent(recs[id := r])
  {
    var recs', ch' := recs[id := r], WithChild(children[id := []], Parents(r), id);
    forall p | p in ch' ensures NoDup(ch'[p]) && forall c :: c in ch'[p] <==> ChildOf(recs', p, c) {
      if p in children {
        assert id !in children[p] by { assert !ChildOf(recs, p, id); }
      }
      forall c ensures c in ch'[p] <==> ChildOf(recs', p, c) {
        if p in children {
          assert c in children[p] <==> ChildOf(recs, p, c);
        } else if c in recs {
          assert p !in Parents(recs[c]);
        }
      }
    }
  }

  // ---- the claim order ----

  /** Byte order on ids. */
  predicate IdLess(a: Id, b: Id) {
    b != [] && (a == [] || a[0] < b[0] || (a[0] == b[0] && IdLess(a[1..], b[1..])))
  }

  predicate Before(recs: Recs, a: Id, b: Id)
    requires a in recs && b in recs
  {
    recs[a].task.runAt < recs[b].task.runAt || (recs[a].task.runAt == recs[b].task.runAt && IdLess(a, b))
  }

  lemma {:induction false} IdLessOrder(a: Id, b: Id, c: Id)
    ensures !IdLess(a, a)
    ensures !IdLess(a, b) && IdLess(c, b) ==> !IdLess(a, c)
  {
    if a != [] {
      IdLessOrder(a[1..], if b == [] then [] else b[1..], if c == [] then [] else c[1..]);
    }
  }

  /** a is no proper prefix of b, and not smaller at the first position where the two differ. */
  ghost predicate NotSmaller(a: Id, b: Id) {
    !(|a| < |b| && b[..|a|] == a)
    && forall k :: 0 <= k < |a| && k < |b| && a[..k] == b[..k] && a[k] != b[k] ==> b[k] < a[k]
  }

  /** The order on ids is that of the first difference, a prefix coming first. */
  lemma {:induction false} IdOrder(a: Id, b: Id)
    ensures !IdLess(a, b) <==> NotSmaller(a, b)
  {
    if a != [] && b != [] {
      if a[0] != b[0] {
        assert a[..0] == b[..0];
        forall k | 0 <= k < |a| && k < |b| && a[..k] == b[..k] ensures k == 0 {
          HeadOfPrefix(a, b, k);
        }
        if |a| < |b| {
          HeadOfPrefix(a, b, |a|);
          assert a[..|a|] == a;
        }
      } else {
        IdOrder(a[1..], b[1..]);
        SmallerTail(a, b);
      }
    }
  }

  lemma HeadOfPrefix(a: Id, b: Id, k: nat)
    requires k <= |a| && k <= |b|
    ensures k > 0 && a[..k] == b[..k] ==> a[0] == b[0]
  {
    if k > 0 {
      assert a[..k][0] == a[0] && b[..k][0] == b[0];
    }
  }

  lemma SmallerTail(a: Id, b: Id)
    requires a != [] && b != [] && a[0] == b[0]
    ensures NotSmaller(a, b) <==> NotSmaller(a[1..], b[1..])
  {
    var c, d := a[1..], b[1..];
    if |a| <= |b| {
      assert b[..|a|] == [b[0]] + d[..|c|] && a == [a[0]] + c;
    }
    forall k | 0 <= k < |c| && k < |d|
      ensures c[..k] == d[..k] <==> a[..k + 1] == b[..k + 1]
      ensures c[k] == a[k + 1] && d[k] == b[k + 1]
    {
      assert a[..k + 1] == [a[0]] + c[..k] && b[..k + 1] == [b[0]] + d[..k];
    }
    if NotSmaller(a, b) {
      forall k | 0 <= k < |c| && k < |d| && c[..k] == d[..k] && c[k] != d[k] ensures d[k] < c[k] {
        assert a[..k + 1] == b[..k + 1];
      }
    }
    if NotSmaller(c, d) {
      forall k | 0 <= k < |a| && k < |b| && a[..k] == b[..k] && a[k] != b[k] ensures b[k] < a[k] {
        assert k > 0 && c[..k - 1] == d[..k - 1];
      }
    }
  }

  lemma BeforeIrreflexive(recs: Recs, a: Id)
    requires a in recs
    ensures !Before(recs, a, a)
  {
    IdLessOrder(a, a, a);
  }

  lemma NotBeforeTransitive(recs: Recs, a: Id, b: Id, c: Id)
    requires a in recs && b in recs && c in recs
    requires !Before(recs, a, b) && Before(recs, c, b)
    ensures !Before(recs, a, c)
  {
    IdLessOrder(a, b, c);
  }

  // ---- decisions read from the records ----

  /** A decision on statuses read from the records is the initial status those records prescribe. */
  lemma DecisionFromTable(recs: Recs, deps: seq<Id>, parents: seq<ParentState>, policy: Policy, d: SubmitDecision)
    requires FromTable(recs, deps, parents)
    requires d.status.Canceled? <==> !policy.IgnoreParentFail? && !NoneDead(parents, |parents|)
    requires d.status.Canceled? ==> NamesFirstDead(parents, d.lastError)
    requires !d.status.Canceled? ==> d.pendingParents == |Unfinished(parents, |parents|)|
    requires !d.status.Canceled? ==> d.status == if d.pendingParents > 0 then Blocked else Pending
    ensures var ps := ParentSet(deps);
            d.status == InitialStatus(recs, ps, policy)
            && (d.status.Canceled? ==> NamesDead(recs, deps, d.lastError))
            && (!d.status.Canceled? ==> d.pendingParents == |Waiting(recs, ps)|)
  {
    var ps := ParentSet(deps);
    assert deps[..|deps|] == deps;
    NoneDeadFromTable(recs, deps, parents, |deps|);
    if d.status.Canceled? {
      var i: nat :| i < |parents| && DeadMention(parents, i) && NoneDead(parents, i)
                    && d.lastError == ParentFailureReason(parents[i].id, parents[i].status);
      assert deps[i] in ps;
      NoneDeadFromTable(recs, deps, parents, i);
      FirstOf(recs, deps[..i]);
      FirstFound(recs, deps, i);
    } else {
      forall p ensures p in Unfinished(parents, |parents|) <==> p in Waiting(recs, ps) {
        MentionsFromTable(recs, deps, parents, |deps|, p);
      }
      assert Unfinished(parents, |parents|) == Waiting(recs, ps);
    }
  }

  lemma NamesDistinct(recs: Recs, deps: seq<Id>, e: ErrText)
    ensures NamesDead(recs, Distinct(deps), e) <==> NamesDead(recs, deps, e)
  {
    DistinctFirst(recs, deps);
  }

  lemma RegisterKeys(recs: Recs, children: map<Id, seq<Id>>, deps: seq<Id>)
    requires IndexExact(recs, children) && forall p :: p in deps ==> p in recs
    ensures forall p :: p in deps ==> p in children
  {}

  /** A decision that is the initial status and the count gives the record the specification asks for; an unset policy
      counts as fail-fast. */
  lemma DecidedSubmitted(recs: Recs, t: Task, id: Id, policy: Policy, d: SubmitDecision, now: int)
    requires ParentSet(t.dependsOn) <= recs.Keys && policy == if t.policy.Unset? then FailFast else t.policy
    requires var ps := ParentSet(t.dependsOn);
             d.status == InitialStatus(recs, ps, policy)
             && (d.status.Canceled? ==> d.pendingParents == 0 && NamesDead(recs, t.dependsOn, d.lastError))
             && (!d.status.Canceled? ==> d.pendingParents == |Waiting(recs, ps)|)
    ensures var r := SubmitRec(t, id, d.status, d.pendingParents, d.lastError, now);
            Submitted(recs, t, id, now, r) && Parents(r) <= recs.Keys
  {
    hide AnyDead, NamesDead, Waiting;
    var r := SubmitRec(t, id, d.status, d.pendingParents, d.lastError, now);
    assert r == SubmitRec(t, id, d.status, d.pendingParents, r.task.lastError, now);
    assert InitialStatus(recs, ParentSet(t.dependsOn), policy) == InitialStatus(recs, ParentSet(t.dependsOn), t.policy);
  }

  lemma DecisionSubmitted(recs: Recs, t: Task, id: Id, parents: seq<ParentState>, policy: Policy, d: SubmitDecision,
                          now: int)
    requires FromTable(recs, t.dependsOn, parents)
    requires policy == if t.policy.Unset? then FailFast else t.policy
    requires d.status.Canceled? <==> !policy.IgnoreParentFail? && !NoneDead(parents, |parents|)
    requires d.status.Canceled? ==> d.pendingParents == 0 && NamesFirstDead(parents, d.lastError)
    requires !d.status.Canceled? ==> d.pendingParents == |Unfinished(parents, |parents|)|
    requires !d.status.Canceled? ==> d.status == if d.pendingParents > 0 then Blocked else Pending
    ensures var r := SubmitRec(t, id, d.status, d.pendingParents, d.lastError, now);
            Submitted(recs, t, id, now, r) && Parents(r) <= recs.Keys
  {
    DecisionFromTable(recs, t.dependsOn, parents, policy, d);
    DecidedSubmitted(recs, t, id, policy, d, now);
  }
}
