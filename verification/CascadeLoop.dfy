/** The loop invariant of the work-list cascade, and the lemmas that move it forward. */
module CascadeLoop {
  import opened Model
  import opened Deps
  import opened Cascade

  /** The parents of c that have reported: the first v of the queue, and the v-th to those in `done`. */
  ghost function HeardSoFar(pre: Recs, queue: seq<Id>, v: nat, done: set<Id>, c: Id): set<Id>
    requires c in pre && v <= |queue|
  {
    set p | p in Parents(pre[c]) && (p in queue[..v] || (v < |queue| && p == queue[v] && c in done))
  }

  /** Each queued task after the root has a parent queued before it. */
  ghost predicate Supported(pre: Recs, queue: seq<Id>) {
    forall i :: 1 <= i < |queue| && queue[i] in pre ==> exists p :: p in Parents(pre[queue[i]]) && p in queue[..i]
  }

  ghost predicate WorkListOk(pre: Recs, root: Id, queue: seq<Id>) {
    |queue| > 0 && queue[0] == root && NoDup(queue) && (forall x :: x in queue ==> x in pre) && Supported(pre, queue)
  }

  ghost predicate ToldAt(pre: Recs, root: Id, queue: seq<Id>, v: nat, done: set<Id>, now: int, recs: Recs, c: Id)
    requires v <= |queue| && c in pre
  {
    c in recs
    && Told(pre, {root}, DeadRoots(pre, {root}), c in queue && c != root, HeardSoFar(pre, queue, v, done, c), now,
            pre[c], recs[c])
  }

  ghost predicate ToldAll(pre: Recs, root: Id, queue: seq<Id>, v: nat, done: set<Id>, now: int, recs: Recs)
    requires v <= |queue|
  {
    forall c :: c in pre ==> ToldAt(pre, root, queue, v, done, now, recs, c)
  }

  /** queue: the root and the tasks canceled so far, in order; its first v have reported to all their children,
      the next one to the children in `done`. */
  ghost predicate Progress(pre: Recs, root: Id, queue: seq<Id>, v: nat, done: set<Id>, now: int, recs: Recs) {
    root in pre && IsFinal(StatusOf(pre, root)) && recs.Keys == pre.Keys
    && WorkListOk(pre, root, queue) && v <= |queue| && (v == |queue| ==> done == {})
    && ToldAll(pre, root, queue, v, done, now, recs)
  }

  lemma ProgressStart(pre: Recs, root: Id, now: int)
    requires root in pre && IsFinal(StatusOf(pre, root))
    ensures Progress(pre, root, [root], 0, {}, now, pre)
  {
    forall c | c in pre ensures HeardSoFar(pre, [root], 0, {}, c) == {} {}
  }

  lemma ProgressBounds(pre: Recs, root: Id, queue: seq<Id>, v: nat, done: set<Id>, now: int, recs: Recs)
    requires Progress(pre, root, queue, v, done, now, recs)
    ensures root in pre && recs.Keys == pre.Keys && v <= |queue| && |queue| > 0 && root in queue
            && WorkListOk(pre, root, queue)
    ensures forall x :: x in queue ==> x in pre
  {}

  /** The task whose children are being visited is final with the status the outcome speaks of. */
  lemma ProgressParent(pre: Recs, root: Id, queue: seq<Id>, v: nat, done: set<Id>, now: int, recs: Recs)
    requires Progress(pre, root, queue, v, done, now, recs) && v < |queue|
    ensures queue[v] in recs && StatusOf(recs, queue[v]) == FinalStatus(pre, {root}, queue[v])
    ensures IsFinal(StatusOf(recs, queue[v]))
    ensures Dead(StatusOf(recs, queue[v])) == DeadRoots(pre, {root})
  {
    var p := queue[v];
    assert p in queue;
    assert ToldAt(pre, root, queue, v, done, now, recs, p);
  }

  /** One visit moves one record from `told` parents to one more. */
  lemma ToldVisit(pre: Recs, roots: set<Id>, gone: bool, told: set<Id>, p: Id, now: int, r: Rec, r1: Rec)
    requires Told(pre, roots, DeadRoots(pre, roots), gone, told, now, r, r1)
    requires p !in told
    requires IsFinal(FinalStatus(pre, roots, p)) && Dead(FinalStatus(pre, roots, p)) == DeadRoots(pre, roots)
    ensures var r2 := VisitChild(p, FinalStatus(pre, roots, p), r1, now);
            Told(pre, roots, DeadRoots(pre, roots), gone || (!IsFinal(r1.task.status) && r2.task.status.Canceled?),
                 told + {p}, now, r, r2)
  {
    var ps := FinalStatus(pre, roots, p);
    var r2 := VisitChild(p, ps, r1, now);
    assert |told + {p}| == |told| + 1;
    if gone {
      assert NamesOne(pre, roots, told + {p}, r1.task.lastError) by {
        var q :| q in told && r1.task.lastError == ParentFailureReason(q, FinalStatus(pre, roots, q));
        assert q in told + {p};
      }
    } else if !IsFinal(r.task.status) && DeadRoots(pre, roots) && !r.task.policy.IgnoreParentFail?
              && !r.task.status.Running? {
      assert NamesOne(pre, roots, told + {p}, r2.task.lastError) by { assert p in told + {p}; }
    }
  }

  lemma HeardGrows(pre: Recs, queue: seq<Id>, v: nat, done: set<Id>, c: Id, x: Id, queue': seq<Id>)
    requires v < |queue| && queue <= queue' && c in pre && x in pre
    ensures HeardSoFar(pre, queue', v, done + {c}, x) ==
            if x == c && queue[v] in Parents(pre[c]) then HeardSoFar(pre, queue, v, done, x) + {queue[v]}
            else HeardSoFar(pre, queue, v, done, x)
  {
    assert queue'[..v] == queue[..v] && queue'[v] == queue[v];
  }

  lemma HeardFresh(pre: Recs, root: Id, queue: seq<Id>, v: nat, done: set<Id>, c: Id)
    requires WorkListOk(pre, root, queue) && v < |queue| && c in pre && c !in done
    ensures queue[v] !in HeardSoFar(pre, queue, v, done, c)
  {
    assert queue[v] !in queue[..v];
  }

  function Extend(queue: seq<Id>, c: Id, before: Rec, after: Rec): seq<Id> {
    if !IsFinal(before.task.status) && after.task.status.Canceled? then queue + [c] else queue
  }

  lemma QueueGrows(pre: Recs, root: Id, queue: seq<Id>, v: nat, c: Id)
    requires WorkListOk(pre, root, queue) && v < |queue| && c in pre && c !in queue && queue[v] in Parents(pre[c])
    ensures WorkListOk(pre, root, queue + [c])
  {
    var q2 := queue + [c];
    forall i | 1 <= i < |q2| && q2[i] in pre ensures exists p :: p in Parents(pre[q2[i]]) && p in q2[..i] {
      if i < |queue| {
        assert q2[i] == queue[i] && q2[..i] == queue[..i];
      } else {
        assert q2[..i] == queue;
        assert queue[v] in q2[..i];
      }
    }
  }

  /** The task at the head of the queue reports to its child c. */
  lemma ProgressVisit(pre: Recs, root: Id, queue: seq<Id>, v: nat, done: set<Id>, now: int, recs: Recs, c: Id)
    requires Progress(pre, root, queue, v, done, now, recs) && v < |queue|
    requires c in pre && c !in done && queue[v] in Parents(pre[c])
    ensures var p := queue[v];
            var r2 := VisitChild(p, StatusOf(recs, p), recs[c], now);
            Progress(pre, root, Extend(queue, c, recs[c], r2), v, done + {c}, now, recs[c := r2])
  {
    var p := queue[v];
    ProgressParent(pre, root, queue, v, done, now, recs);
    var r2 := VisitChild(p, StatusOf(recs, p), recs[c], now);
    var queue' := Extend(queue, c, recs[c], r2);
    var recs' := recs[c := r2];
    assert ToldAt(pre, root, queue, v, done, now, recs, c);
    if queue' != queue {
      QueueGrows(pre, root, queue, v, c);
    }
    HeardFresh(pre, root, queue, v, done, c);
    ToldVisit(pre, {root}, c in queue && c != root, HeardSoFar(pre, queue, v, done, c), p, now, pre[c], recs[c]);
    forall x | x in pre ensures ToldAt(pre, root, queue', v, done + {c}, now, recs', x) {
      ToldMoves(pre, root, queue, v, done, now, recs, c, x, queue', r2);
    }
  }

  lemma ToldMoves(pre: Recs, root: Id, queue: seq<Id>, v: nat, done: set<Id>, now: int, recs: Recs,
                  c: Id, x: Id, queue': seq<Id>, r2: Rec)
    requires v < |queue| && c in pre && x in pre && queue[v] in Parents(pre[c])
    requires queue' == queue || queue' == queue + [c]
    requires ToldAt(pre, root, queue, v, done, now, recs, x)
    requires Told(pre, {root}, DeadRoots(pre, {root}), c in queue' && c != root,
                  HeardSoFar(pre, queue, v, done, c) + {queue[v]}, now, pre[c], r2)
    ensures ToldAt(pre, root, queue', v, done + {c}, now, recs[c := r2], x)
  {
    HeardGrows(pre, queue, v, done, c, x, queue');
    assert x != c ==> (x in queue' <==> x in queue);
  }

  /** All children of the head have heard: move on to the next in the queue. */
  lemma ProgressNext(pre: Recs, root: Id, queue: seq<Id>, v: nat, done: set<Id>, now: int, recs: Recs)
    requires Progress(pre, root, queue, v, done, now, recs) && v < |queue|
    requires forall c :: c in pre && queue[v] in Parents(pre[c]) ==> c in done
    ensures Progress(pre, root, queue, v + 1, {}, now, recs)
  {
    forall c | c in pre ensures ToldAt(pre, root, queue, v + 1, {}, now, recs, c) {
      assert ToldAt(pre, root, queue, v, done, now, recs, c);
      HeardNext(pre, queue, v, done, c);
    }
  }

  lemma HeardNext(pre: Recs, queue: seq<Id>, v: nat, done: set<Id>, c: Id)
    requires v < |queue| && c in pre && (queue[v] in Parents(pre[c]) ==> c in done)
    ensures HeardSoFar(pre, queue, v + 1, {}, c) == HeardSoFar(pre, queue, v, done, c)
  {
    assert queue[..v + 1] == queue[..v] + [queue[v]];
  }

  /** The queued tasks lie in every closed set. */
  lemma {:induction false} QueueForced(pre: Recs, root: Id, queue: seq<Id>, d: set<Id>, i: nat)
    requires WorkListOk(pre, root, queue) && DeadRoots(pre, {root}) && Closed(pre, {root}, d)
    requires forall x :: x in queue && x != root ==> Doomable(pre[x])
    requires 1 <= i < |queue|
    ensures queue[i] in d
    decreases i
  {
    var p :| p in Parents(pre[queue[i]]) && p in queue[..i];
    var j :| 0 <= j < i && queue[j] == p;
    if j > 0 {
      QueueForced(pre, root, queue, d, j);
    }
    assert queue[i] in queue && queue[i] != root;
    assert Deadly(pre, {root}, d, p);
  }

  /** The queue is drained: everyone has heard from exactly the root and the canceled. */
  lemma ProgressSettled(pre: Recs, root: Id, queue: seq<Id>, now: int, recs: Recs)
    requires Progress(pre, root, queue, |queue|, {}, now, recs)
    ensures Settled(pre, {root}, Elems(queue) - {root}, now, recs)
  {
    var gone := Elems(queue) - {root};
    assert queue[..|queue|] == queue && root in queue;
    forall c | c in pre
      ensures Told(pre, {root}, DeadRoots(pre, {root}), c in gone, Parents(pre[c]) * ({root} + gone), now, pre[c],
                   recs[c])
    {
      assert ToldAt(pre, root, queue, |queue|, {}, now, recs, c);
      assert HeardSoFar(pre, queue, |queue|, {}, c) == Parents(pre[c]) * ({root} + gone);
    }
  }

  /** Settling with `gone` leaves `gone` closed. */
  lemma SettledClosed(pre: Recs, roots: set<Id>, gone: set<Id>, now: int, post: Recs)
    requires Settled(pre, roots, gone, now, post)
    ensures Closed(pre, roots, gone)
  {
    forall c, p | c in pre && Doomable(pre[c]) && p in Parents(pre[c]) && Deadly(pre, roots, gone, p)
      ensures c in gone
    {
      assert Told(pre, roots, DeadRoots(pre, roots), c in gone, Parents(pre[c]) * (roots + gone), now, pre[c], post[c]);
      assert p in Parents(pre[c]) * (roots + gone);
      if p in gone {
        assert Told(pre, roots, DeadRoots(pre, roots), p in gone, Parents(pre[p]) * (roots + gone), now, pre[p],
                    post[p]);
      }
    }
  }

  lemma SettledDoomable(pre: Recs, roots: set<Id>, gone: set<Id>, now: int, post: Recs)
    requires Settled(pre, roots, gone, now, post)
    ensures forall c :: c in gone ==> DeadRoots(pre, roots) && c in pre && Doomable(pre[c])
  {
    forall c | c in gone ensures DeadRoots(pre, roots) && Doomable(pre[c]) {
      assert Told(pre, roots, DeadRoots(pre, roots), c in gone, Parents(pre[c]) * (roots + gone), now, pre[c], post[c]);
    }
  }

  /** The result is exact: precisely the least doomed set was canceled. */
  lemma ProgressFinish(pre: Recs, root: Id, queue: seq<Id>, now: int, recs: Recs)
    requires Progress(pre, root, queue, |queue|, {}, now, recs)
    ensures Outcome(pre, {root}, now, recs)
  {
    var gone := Elems(queue) - {root};
    ProgressSettled(pre, root, queue, now, recs);
    SettledClosed(pre, {root}, gone, now, recs);
    SettledDoomable(pre, {root}, gone, now, recs);
    DoomedLeast(pre, {root}, gone);
    forall c | c in gone ensures c in Doomed(pre, {root}) {
      var i :| 0 <= i < |queue| && queue[i] == c;
      forall d: set<Id> | Closed(pre, {root}, d) ensures c in d {
        QueueForced(pre, root, queue, d, i);
      }
    }
    assert gone == Doomed(pre, {root});
  }
}
