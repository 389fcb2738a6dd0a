/** Reaping expired leases one by one gives the same result in every order; the repair pass restores exact counts. */
module Reaping {
  import opened Model
  import opened Deps
  import opened Cascade
  import opened Spec
  import opened Plain
  import opened Wiring
  import opened Graph
  import opened Invariants

  // ---------------------------------------------------------------------------------------------
  // Two cascades in a row are one cascade from both sets of roots
  // ---------------------------------------------------------------------------------------------

  /** e, unfinished and untouched by the cascade pre -> mid, now ends dead. */
  ghost predicate Second(pre: Recs, roots: set<Id>, now: int, mid: Recs, e: Id, r: Rec) {
    Outcome(pre, roots, now, mid) && DeadRoots(pre, roots)
    && e in pre && e in mid && mid[e] == pre[e] && !IsFinal(StatusOf(pre, e)) && !Doomable(pre[e])
    && Dead(r.task.status)
  }

  /** A task the first cascade did not cancel is as doomable after it as before. */
  lemma DoomableMid(pre: Recs, roots: set<Id>, now: int, mid: Recs, c: Id)
    requires Outcome(pre, roots, now, mid) && DeadRoots(pre, roots) && c in pre
    ensures c in mid && (Doomable(mid[c]) ==> Doomable(pre[c]))
    ensures Doomable(pre[c]) && c !in Doomed(pre, roots) ==> mid[c] == pre[c]
    ensures c in Doomed(pre, roots) ==> Doomable(pre[c]) && mid[c].task.status.Canceled?
    ensures c in roots ==> mid[c] == pre[c]
  {
    hide NamesOne, Doomed, Parents;
    SettledOne(pre, roots, Doomed(pre, roots), now, mid, c);
  }

  lemma DoomedUpper(pre: Recs, roots: set<Id>, now: int, mid: Recs, e: Id, r: Rec)
    requires Second(pre, roots, now, mid, e, r)
    ensures Closed(pre[e := r], roots + {e}, Doomed(pre, roots) + Doomed(mid[e := r], {e}))
  {
    hide Outcome, Doomed;
    var p', r', m' := pre[e := r], roots + {e}, mid[e := r];
    var d1, d2 := Doomed(pre, roots), Doomed(m', {e});
    DoomedClosed(pre, roots);
    DoomedClosed(m', {e});
    forall c, p | c in p' && Doomable(p'[c]) && p in Parents(p'[c]) && Deadly(p', r', d1 + d2, p) ensures c in d1 + d2 {
      DoomableMid(pre, roots, now, mid, c);
      if p in roots || p in d1 {
        assert Deadly(pre, roots, d1, p);
      } else if c !in d1 {
        assert Deadly(m', {e}, d2, p);
        assert m'[c] == pre[c];
      }
    }
  }

  lemma DoomedLower(pre: Recs, roots: set<Id>, now: int, mid: Recs, e: Id, r: Rec, x: set<Id>)
    requires Second(pre, roots, now, mid, e, r) && Closed(pre[e := r], roots + {e}, x)
    ensures Doomed(pre, roots) + Doomed(mid[e := r], {e}) <= x
  {
    hide Outcome, Doomed;
    var p', r', m' := pre[e := r], roots + {e}, mid[e := r];
    assert DeadRoots(p', r');
    forall c, p | c in pre && Doomable(pre[c]) && p in Parents(pre[c]) && Deadly(pre, roots, x, p) ensures c in x {
      assert Deadly(p', r', x, p) && p'[c] == pre[c];
    }
    DoomedLeast(pre, roots, x);
    OutcomeSameDeps(pre, roots, now, mid);
    forall c, p | c in m' && Doomable(m'[c]) && p in Parents(m'[c]) && Deadly(m', {e}, x, p) ensures c in x {
      SameParentsMid(pre, roots, now, mid, c);
      DoomableMid(pre, roots, now, mid, c);
      assert Deadly(p', r', x, p) && p'[c] == pre[c];
    }
    DoomedLeast(m', {e}, x);
  }

  lemma SameParentsMid(pre: Recs, roots: set<Id>, now: int, mid: Recs, c: Id)
    requires Outcome(pre, roots, now, mid) && c in pre
    ensures c in mid && Parents(mid[c]) == Parents(pre[c])
  {
    hide Doomed;
    OutcomeSameDeps(pre, roots, now, mid);
  }

  lemma DoomedBoth(pre: Recs, roots: set<Id>, now: int, mid: Recs, e: Id, r: Rec)
    requires Second(pre, roots, now, mid, e, r)
    ensures Doomed(pre[e := r], roots + {e}) == Doomed(pre, roots) + Doomed(mid[e := r], {e})
  {
    hide Second, Doomed;
    DoomedUpper(pre, roots, now, mid, e, r);
    DoomedLeast(pre[e := r], roots + {e}, Doomed(pre, roots) + Doomed(mid[e := r], {e}));
    DoomedClosed(pre[e := r], roots + {e});
    DoomedLower(pre, roots, now, mid, e, r, Doomed(pre[e := r], roots + {e}));
  }

  lemma CountedTwice(r: Rec, n: nat, m: nat)
    ensures Counted(Counted(r, n), m) == Counted(r, n + m)
    ensures var r' := Counted(r, n);
            r'.task.policy == r.task.policy && IsFinal(r'.task.status) == IsFinal(r.task.status)
            && r'.task.status.Running? == r.task.status.Running?
  {}

  lemma NamesEither(a: Recs, ra: set<Id>, p: Recs, rp: set<Id>, told: set<Id>, all: set<Id>, e: ErrText)
    requires NamesOne(a, ra, told, e) && told <= all
    requires forall q :: q in told ==> FinalStatus(p, rp, q) == FinalStatus(a, ra, q)
    ensures NamesOne(p, rp, all, e)
  {
    var q :| q in told && e == ParentFailureReason(q, FinalStatus(a, ra, q));
    assert q in all && e == ParentFailureReason(q, FinalStatus(p, rp, q));
  }

  /** A record that heard from told1 and then from told2 is one that heard from both. */
  lemma ToldTwice(a: Recs, ra: set<Id>, b: Recs, rb: set<Id>, p: Recs, rp: set<Id>, gone1: bool, gone2: bool,
                  told1: set<Id>, told2: set<Id>, now: int, r: Rec, r1: Rec, r2: Rec)
    requires Told(a, ra, true, gone1, told1, now, r, r1) && Told(b, rb, true, gone2, told2, now, r1, r2)
    requires told1 !! told2
    requires forall q :: q in told1 ==> FinalStatus(p, rp, q) == FinalStatus(a, ra, q)
    requires forall q :: q in told2 ==> FinalStatus(p, rp, q) == FinalStatus(b, rb, q)
    ensures Told(p, rp, true, gone1 || gone2, told1 + told2, now, r, r2)
  {
    hide FinalStatus, NamesOne, Counted;
    assert |told1 + told2| == |told1| + |told2|;
    CountedTwice(r, |told1|, |told2|);
    if gone1 {
      NamesEither(a, ra, p, rp, told1, told1 + told2, r1.task.lastError);
    } else if gone2 {
      NamesEither(b, rb, p, rp, told2, told1 + told2, r2.task.lastError);
    }
  }

  lemma FinalStatusBoth(pre: Recs, roots: set<Id>, now: int, mid: Recs, e: Id, r: Rec, q: Id)
    requires Second(pre, roots, now, mid, e, r)
    ensures q in roots + Doomed(pre, roots) ==> FinalStatus(pre[e := r], roots + {e}, q) == FinalStatus(pre, roots, q)
    ensures q in {e} + Doomed(mid[e := r], {e}) ==>
              FinalStatus(pre[e := r], roots + {e}, q) == FinalStatus(mid[e := r], {e}, q)
              && q !in roots + Doomed(pre, roots)
  {
    hide Outcome, Doomed;
    var d1, d2 := Doomed(pre, roots), Doomed(mid[e := r], {e});
    assert d1 <= pre.Keys && d2 <= mid.Keys by { DoomedWithin(pre, roots); DoomedWithin(mid[e := r], {e}); }
    OutcomeSameDeps(pre, roots, now, mid);
    if q in pre {
      DoomableMid(pre, roots, now, mid, q);
    }
    if q in d2 {
      DoomedOnly(mid[e := r], {e}, q);
    }
    DoomableMid(pre, roots, now, mid, e);
  }

  lemma DoomedWithin(pre: Recs, roots: set<Id>)
    ensures Doomed(pre, roots) <= pre.Keys
  {}

  /** Only doomable tasks are doomed. */
  lemma DoomedOnly(pre: Recs, roots: set<Id>, c: Id)
    requires c in Doomed(pre, roots)
    ensures c in pre && Doomable(pre[c])
  {
    var d := set x | x in pre && Doomable(pre[x]);
    assert Closed(pre, roots, d);
    DoomedLeast(pre, roots, d);
  }

  lemma OutcomeBoth(pre: Recs, roots: set<Id>, now: int, mid: Recs, e: Id, r: Rec, post: Recs)
    requires Second(pre, roots, now, mid, e, r) && Outcome(mid[e := r], {e}, now, post)
    ensures Outcome(pre[e := r], roots + {e}, now, post)
  {
    hide Told, Doomed, FinalStatus, Doomable;
    var p', r', m' := pre[e := r], roots + {e}, mid[e := r];
    var d1, d2 := Doomed(pre, roots), Doomed(m', {e});
    DoomedBoth(pre, roots, now, mid, e, r);
    DoomedWithin(p', r');
    assert DeadRoots(p', r') && DeadRoots(m', {e});
    forall c | c in p'
      ensures Told(p', r', true, c in d1 + d2, Parents(p'[c]) * (r' + (d1 + d2)), now, p'[c], post[c]) {
      OutcomeBothAt(pre, roots, now, mid, e, r, post, c);
    }
  }

  lemma OutcomeBothAt(pre: Recs, roots: set<Id>, now: int, mid: Recs, e: Id, r: Rec, post: Recs, c: Id)
    requires Second(pre, roots, now, mid, e, r) && Outcome(mid[e := r], {e}, now, post) && c in pre
    ensures c in post
    ensures var d := Doomed(pre, roots) + Doomed(mid[e := r], {e});
            Told(pre[e := r], roots + {e}, true, c in d, Parents(pre[e := r][c]) * (roots + {e} + d), now,
                 pre[e := r][c], post[c])
  {
    hide Doomed, FinalStatus, Closed, NamesOne, Counted, CanceledRec;
    var p', r', m' := pre[e := r], roots + {e}, mid[e := r];
    var d1, d2 := Doomed(pre, roots), Doomed(m', {e});
    SettledOne(pre, roots, d1, now, mid, c);
    SettledOne(m', {e}, d2, now, post, c);
    SameParentsMid(pre, roots, now, mid, c);
    if c == e {
      if e in d1 { DoomedOnly(pre, roots, e); }
      if e in d2 { DoomedOnly(m', {e}, e); }
    } else {
      var ps := Parents(pre[c]);
      var told1, told2 := ps * (roots + d1), ps * ({e} + d2);
      forall q ensures q in told1 ==> FinalStatus(p', r', q) == FinalStatus(pre, roots, q)
               ensures q in told2 ==> FinalStatus(p', r', q) == FinalStatus(m', {e}, q) && q !in told1
      {
        FinalStatusBoth(pre, roots, now, mid, e, r, q);
      }
      assert told1 + told2 == ps * (r' + (d1 + d2));
      ToldTwice(pre, roots, m', {e}, p', r', c in d1, c in d2, told1, told2, now, pre[c], mid[c], post[c]);
    }
  }

  // ---------------------------------------------------------------------------------------------
  // Reaping lease by lease
  // ---------------------------------------------------------------------------------------------

  /** The expired leases in `seen` have been reaped, in whatever order. */
  ghost predicate ReapedSoFar(c: Config, recs0: Recs, seen: set<Id>, now: int, recs: Recs) {
    Outcome(Reaped(c, recs0, seen, now), Ended(c, recs0, seen, now), now, recs)
  }

  lemma OutcomeIdle(recs: Recs, now: int)
    ensures Outcome(recs, {}, now, recs)
  {
    assert Closed(recs, {}, {});
    DoomedLeast(recs, {}, {});
    SettledIdle(recs, now);
  }

  lemma ReapedNone(c: Config, recs: Recs, now: int)
    ensures ReapedSoFar(c, recs, {}, now, recs)
  {
    hide Outcome, ReapRec;
    assert Reaped(c, recs, {}, now) == recs && Ended(c, recs, {}, now) == {};
    OutcomeIdle(recs, now);
  }

  /** Reaping others leaves a task's lease alone: it is expired now exactly when it was at the start. */
  lemma NotYetReaped(c: Config, recs0: Recs, seen: set<Id>, now: int, recs: Recs, id: Id)
    requires GraphInv(recs0) && ReapedSoFar(c, recs0, seen, now, recs) && id in recs0 && id !in seen
    ensures id in recs && (Expired(recs[id], now) <==> Expired(recs0[id], now))
    ensures recs0[id].task.status.Running? ==> recs[id] == recs0[id]
    ensures recs0[id].task.status.Running? ==>
              var pre, roots := Reaped(c, recs0, seen, now), Ended(c, recs0, seen, now);
              Heard(pre, roots, Doomed(pre, roots), id) == {}
  {
    hide GraphInv, Doomed, Ended, Told, ReapRec;
    var pre, roots := Reaped(c, recs0, seen, now), Ended(c, recs0, seen, now);
    EndReaped(c, recs0, seen, now);
    SettledMoves(recs0, pre, roots, Doomed(pre, roots), now, recs, id);
    HeardBlocked(recs0, pre, roots, Doomed(pre, roots), now, recs, id);
  }

  lemma ReapedMoreEnded(c: Config, recs0: Recs, seen: set<Id>, now: int, recs: Recs, id: Id, post: Recs)
    requires GraphInv(recs0) && ReapedSoFar(c, recs0, seen, now, recs) && id in recs0 && id !in seen
             && Expired(recs0[id], now)
    requires var r := ReapRec(c, recs0[id], now); IsFinal(r.task.status) && Outcome(recs[id := r], {id}, now, post)
    ensures ReapedSoFar(c, recs0, seen + {id}, now, post)
  {
    hide GraphInv, Outcome, ReapRec;
    var pre, roots, r := Reaped(c, recs0, seen, now), Ended(c, recs0, seen, now), ReapRec(c, recs0[id], now);
    NotYetReaped(c, recs0, seen, now, recs, id);
    EndReaped(c, recs0, seen, now);
    ReapShape(c, recs0[id], now);
    assert Second(pre, roots, now, recs, id, r);
    OutcomeBoth(pre, roots, now, recs, id, r, post);
    assert Reaped(c, recs0, seen + {id}, now) == pre[id := r];
    assert Ended(c, recs0, seen + {id}, now) == roots + {id};
  }

  /** Replacing a task nobody reports to by another unfinished one commutes with the cascade. */
  lemma OutcomePlain(pre: Recs, roots: set<Id>, now: int, mid: Recs, id: Id, r: Rec)
    requires Outcome(pre, roots, now, mid) && DeadRoots(pre, roots) && id in pre && id !in roots && !Doomable(pre[id])
    requires Heard(pre, roots, Doomed(pre, roots), id) == {} && Parents(r) == Parents(pre[id])
    ensures Outcome(pre[id := r], roots, now, mid[id := r])
  {
    hide Told, Doomable, Doomed;
    var p', d := pre[id := r], Doomed(pre, roots);
    DoomedClosed(pre, roots);
    assert DeadRoots(p', roots);
    forall p | p in Parents(pre[id]) ensures p !in roots + d {
      assert p !in Heard(pre, roots, d, id);
    }
    forall x, p | x in p' && Doomable(p'[x]) && p in Parents(p'[x]) && Deadly(p', roots, d, p) ensures x in d {
      assert Deadly(pre, roots, d, p);
    }
    DoomedLeast(p', roots, d);
    DoomedClosed(p', roots);
    var d' := Doomed(p', roots);
    forall x, p | x in pre && Doomable(pre[x]) && p in Parents(pre[x]) && Deadly(pre, roots, d', p) ensures x in d' {
      assert Deadly(p', roots, d', p) && p'[x] == pre[x];
    }
    DoomedLeast(pre, roots, d');
    DoomedWithin(p', roots);
    assert d' == d;
    forall x | x in p'
      ensures Told(p', roots, true, x in d, Parents(p'[x]) * (roots + d), now, p'[x], mid[id := r][x])
    {
      SettledOne(pre, roots, d, now, mid, x);
      if x == id {
        ToldNothing(pre, roots, true, id in d, now, pre[id], mid[id]);
        ToldUnheard(p', roots, true, now, r);
      } else {
        ToldFrame(pre, p', roots, true, x in d, Parents(pre[x]) * (roots + d), now, pre[x], mid[x]);
      }
    }
  }

  lemma ReapedMoreReturned(c: Config, recs0: Recs, seen: set<Id>, now: int, recs: Recs, id: Id)
    requires GraphInv(recs0) && ReapedSoFar(c, recs0, seen, now, recs) && id in recs0 && id !in seen
             && Expired(recs0[id], now)
    requires !IsFinal(ReapRec(c, recs0[id], now).task.status)
    ensures ReapedSoFar(c, recs0, seen + {id}, now, recs[id := ReapRec(c, recs0[id], now)])
  {
    hide GraphInv, Outcome, ReapRec, Doomed;
    var pre, roots, r := Reaped(c, recs0, seen, now), Ended(c, recs0, seen, now), ReapRec(c, recs0[id], now);
    NotYetReaped(c, recs0, seen, now, recs, id);
    EndReaped(c, recs0, seen, now);
    ReapShape(c, recs0[id], now);
    assert Parents(r) == Parents(pre[id]);
    OutcomePlain(pre, roots, now, recs, id, r);
    assert Reaped(c, recs0, seen + {id}, now) == pre[id := r];
    assert Ended(c, recs0, seen + {id}, now) == roots;
  }

  lemma ReapedSkip(c: Config, recs0: Recs, seen: set<Id>, now: int, recs: Recs, id: Id)
    requires ReapedSoFar(c, recs0, seen, now, recs) && id in recs0 && !Expired(recs0[id], now)
    ensures ReapedSoFar(c, recs0, seen + {id}, now, recs)
  {
    hide Outcome, ReapRec;
    assert Reaped(c, recs0, seen + {id}, now) == Reaped(c, recs0, seen, now);
    assert Ended(c, recs0, seen + {id}, now) == Ended(c, recs0, seen, now);
  }

  // ---------------------------------------------------------------------------------------------
  // Repair
  // ---------------------------------------------------------------------------------------------

  /** Wakes or cancels may have been lost: a blocked count is at or above the truth, dead parents are possible. */
  ghost predicate Overcounted(recs: Recs) {
    ParentsPresent(recs)
    && forall c :: c in recs && StatusOf(recs, c).Blocked? ==>
       recs[c].pendingParents >= |Waiting(recs, Parents(recs[c]))|
  }

  /** A task that is still blocked waits for exactly its unfinished parents and has no dead parent under fail-fast. */
  ghost predicate Sound(recs: Recs, c: Id) {
    c in recs && (StatusOf(recs, c).Blocked? ==> NodeOk(recs, c))
  }

  ghost predicate Repaired(recs: Recs) {
    forall c :: c in recs ==> Sound(recs, c)
  }

  /** The repair of one task in plain fields: a blocked one whose parents are all known is canceled, with the cascade,
      when it does not ignore dead parents and has one; otherwise it is pending once no parent is open, and blocked with
      the number of open parents until then. */
  ghost predicate RepairedOne(recs: Recs, id: Id, now: int, recs': Recs) {
    id in recs && id in recs'
    && var r, r', deps := recs[id], recs'[id], recs[id].task.dependsOn;
       if r.task.status != Blocked || exists p :: p in deps && p !in recs then recs' == recs
       else if r.task.policy != IgnoreParentFail && HasDeadParent(recs, deps) then
         RepairCancels(recs, r, now, r') && Outcome(recs[id := r'], {id}, now, recs')
       else if OpenParents(recs, deps) == {} then
         recs' == recs[id := r.(task := r.task.(status := Pending), pendingParents := 0)]
       else recs' == recs[id := r.(pendingParents := |OpenParents(recs, deps)|)]
  }

  /** Canceled, naming a dead parent; the lease, which a blocked task does not have, cleared or left alone. */
  ghost predicate RepairCancels(recs: Recs, r: Rec, now: int, r': Rec) {
    NamesDeadParent(recs, r.task.dependsOn, r'.task.lastError)
    && r' == r.(task := r.task.(status := Canceled, lastError := r'.task.lastError, finishedAt := now,
                                leaseToken := r'.task.leaseToken), leaseUntil := r'.leaseUntil)
    && (r'.task.leaseToken == r.task.leaseToken || r'.task.leaseToken == "")
    && (r'.leaseUntil == r.leaseUntil || r'.leaseUntil == 0)
  }

  lemma RepairedNot(recs: Recs, id: Id, now: int)
    requires id in recs && (recs[id].task.status == Blocked ==> exists p :: p in Parents(recs[id]) && p !in recs)
    ensures RepairedOne(recs, id, now, recs)
  {
    if recs[id].task.status == Blocked {
      var p :| p in Parents(recs[id]) && p !in recs;
      assert p in recs[id].task.dependsOn;
    }
  }

  /** Acting on the decision over the parents is the repair. */
  lemma RepairActs(recs: Recs, id: Id, now: int, d: SubmitDecision, r': Rec, recs': Recs)
    requires id in recs && recs[id].task.status == Blocked && forall p :: p in recs[id].task.dependsOn ==> p in recs
    requires d.status == InitialStatus(recs, Parents(recs[id]), recs[id].task.policy)
    requires d.status != Canceled ==> d.pendingParents == |Waiting(recs, Parents(recs[id]))|
    requires if d.status == Canceled
             then RepairCancels(recs, recs[id], now, r') && Outcome(recs[id := r'], {id}, now, recs')
             else recs' == recs[id := r']
                  && r' == if d.status == Pending
                           then recs[id].(task := recs[id].task.(status := Pending), pendingParents := 0)
                           else recs[id].(pendingParents := d.pendingParents)
    ensures RepairedOne(recs, id, now, recs')
  {
    hide Outcome, InitialStatus, Waiting, HasDeadParent, OpenParents;
    DecisionPlain(recs, recs[id].task.dependsOn, recs[id].task.policy, d.status, d.pendingParents);
    if d.status == Canceled {
      RootKept(recs[id := r'], id, now, recs');
    }
  }

  lemma RootKept(pre: Recs, id: Id, now: int, post: Recs)
    requires Outcome(pre, {id}, now, post) && id in pre && IsFinal(StatusOf(pre, id))
    ensures id in post && post[id] == pre[id]
  {
    SettledOne(pre, {id}, Doomed(pre, {id}), now, post, id);
  }

  // ---- task after task ----

  ghost predicate RepairTurn(mids: seq<Recs>, order: seq<Id>, now: int, k: nat)
    requires k < |order| && |mids| == |order| + 1
  {
    RepairedOne(mids[k], order[k], now, mids[k + 1])
  }

  ghost predicate RepairTurns(mids: seq<Recs>, order: seq<Id>, now: int) {
    |mids| == |order| + 1 && NoDup(order) && forall k: nat :: k < |order| ==> RepairTurn(mids, order, now, k)
  }

  /** The tasks in `seen` have been repaired, each once, one after the other. */
  ghost predicate RepairedSoFar(recs: Recs, seen: set<Id>, now: int, recs': Recs) {
    exists mids: seq<Recs>, order: seq<Id> ::
      RepairTurns(mids, order, now) && mids[0] == recs && mids[|order|] == recs' && Elems(order) == seen
  }

  lemma RepairedNone(recs: Recs, now: int)
    ensures RepairedSoFar(recs, {}, now, recs)
  {
    assert RepairTurns([recs], [], now) && Elems<Id>([]) == {};
  }

  lemma RepairedMore(recs0: Recs, seen: set<Id>, now: int, before: Recs, id: Id, recs: Recs)
    requires RepairedSoFar(recs0, seen, now, before) && id !in seen && RepairedOne(before, id, now, recs)
    ensures RepairedSoFar(recs0, seen + {id}, now, recs)
  {
    hide RepairedOne;
    var mids: seq<Recs>, order: seq<Id> :|
      RepairTurns(mids, order, now) && mids[0] == recs0 && mids[|order|] == before && Elems(order) == seen;
    var mids', order' := mids + [recs], order + [id];
    forall k: nat | k < |order'| ensures RepairTurn(mids', order', now, k) {
      assert k < |order| ==> RepairTurn(mids, order, now, k);
    }
    assert id !in order;
    assert Elems(order') == seen + {id};
    assert RepairTurns(mids', order', now);
  }

  ghost predicate LeaseTurn(c: Config, mids: seq<Recs>, order: seq<Id>, now: int, k: nat)
    requires k < |order| && |mids| == |order| + 1
  {
    var id := order[k];
    id in mids[k]
    && if mids[k][id].task.status == Running && mids[k][id].leaseUntil < now
       then ReapedOne(c, mids[k], id, now, mids[k + 1]) else mids[k + 1] == mids[k]
  }

  ghost predicate LeaseTurns(c: Config, mids: seq<Recs>, order: seq<Id>, now: int) {
    |mids| == |order| + 1 && NoDup(order) && forall k: nat :: k < |order| ==> LeaseTurn(c, mids, order, now, k)
  }

  /** The leases in `seen` have been looked at, each once, one after the other, and reaped when they had run out. */
  ghost predicate LookedAt(c: Config, recs: Recs, seen: set<Id>, now: int, recs': Recs) {
    exists mids: seq<Recs>, order: seq<Id> ::
      LeaseTurns(c, mids, order, now) && mids[0] == recs && mids[|order|] == recs' && Elems(order) == seen
  }

  lemma LookedAtNone(c: Config, recs: Recs, now: int)
    ensures LookedAt(c, recs, {}, now, recs)
  {
    assert LeaseTurns(c, [recs], [], now) && Elems<Id>([]) == {};
  }

  lemma LookedAtMore(c: Config, recs0: Recs, seen: set<Id>, now: int, before: Recs, id: Id, recs: Recs)
    requires LookedAt(c, recs0, seen, now, before) && id !in seen && id in before
    requires if Expired(before[id], now) then ReapedOne(c, before, id, now, recs) else recs == before
    ensures LookedAt(c, recs0, seen + {id}, now, recs)
  {
    hide ReapedOne;
    var mids: seq<Recs>, order: seq<Id> :|
      LeaseTurns(c, mids, order, now) && mids[0] == recs0 && mids[|order|] == before && Elems(order) == seen;
    var mids', order' := mids + [recs], order + [id];
    forall k: nat | k < |order'| ensures LeaseTurn(c, mids', order', now, k) {
      assert k < |order| ==> LeaseTurn(c, mids, order, now, k);
    }
    assert id !in order;
    assert Elems(order') == seen + {id};
    assert LeaseTurns(c, mids', order', now);
  }

  /** Every lease that has run out is reaped, every blocked task repaired. */
  ghost predicate AllLeases(recs: Recs, now: int, seen: set<Id>) {
    forall x :: x in recs && recs[x].task.status == Running && recs[x].leaseUntil < now ==> x in seen
  }

  ghost predicate AllBlocked(recs: Recs, seen: set<Id>) {
    forall x :: x in recs && recs[x].task.status == Blocked ==> x in seen
  }

  ghost predicate ReapedInTurn(c: Config, recs: Recs, now: int, recs': Recs) {
    exists seen: set<Id> :: LookedAt(c, recs, seen, now, recs') && AllLeases(recs, now, seen)
  }

  ghost predicate RepairedInTurn(recs: Recs, now: int, recs': Recs) {
    exists seen: set<Id> :: RepairedSoFar(recs, seen, now, recs') && AllBlocked(recs, seen)
  }

  lemma LookedAtAll(c: Config, recs: Recs, seen: set<Id>, now: int, recs': Recs)
    requires LookedAt(c, recs, seen, now, recs') && AllLeases(recs, now, seen)
    ensures ReapedInTurn(c, recs, now, recs')
  {}

  lemma RepairedAll(recs: Recs, seen: set<Id>, now: int, recs': Recs)
    requires RepairedSoFar(recs, seen, now, recs') && AllBlocked(recs, seen)
    ensures RepairedInTurn(recs, now, recs')
  {}

  /** From any state: the leases first, then the blocked tasks. */
  ghost predicate ReapedThenRepaired(c: Config, recs: Recs, now: int, recs': Recs) {
    exists mid :: ReapedInTurn(c, recs, now, mid) && RepairedInTurn(mid, now, recs')
  }

  /** Blocked before and after: only the count moved. */
  lemma BlockedAfter(pre: Recs, roots: set<Id>, dead: bool, gone: bool, told: set<Id>, now: int, r: Rec, r': Rec)
    requires Told(pre, roots, dead, gone, told, now, r, r') && r'.task.status.Blocked?
    ensures r.task.status.Blocked? && !gone && r'.pendingParents >= r.pendingParents - |told|
  {
    hide NamesOne;
  }

  lemma OverKept(pre0: Recs, pre: Recs, roots: set<Id>, gone: set<Id>, now: int, post: Recs)
    requires Overcounted(pre0) && Ending(pre0, pre, roots) && Settled(pre, roots, gone, now, post)
    ensures Overcounted(post)
  {
    forall c | c in post
      ensures Parents(post[c]) <= post.Keys
      ensures StatusOf(post, c).Blocked? ==> post[c].pendingParents >= |Waiting(post, Parents(post[c]))|
    {
      OverKeptAt(pre0, pre, roots, gone, now, post, c);
    }
  }

  lemma OverKeptAt(pre0: Recs, pre: Recs, roots: set<Id>, gone: set<Id>, now: int, post: Recs, c: Id)
    requires Overcounted(pre0) && Ending(pre0, pre, roots) && Settled(pre, roots, gone, now, post) && c in post
    ensures Parents(post[c]) <= post.Keys
    ensures StatusOf(post, c).Blocked? ==> post[c].pendingParents >= |Waiting(post, Parents(post[c]))|
  {
    hide Told, Waiting, Parents, DeadRoots, Heard;
    var heard := Heard(pre, roots, gone, c);
    ParentsAfter(pre0, pre, roots, gone, now, post, c);
    SettledOne(pre, roots, gone, now, post, c);
    if post[c].task.status.Blocked? {
      BlockedAfter(pre, roots, DeadRoots(pre, roots), c in gone, heard, now, pre[c], post[c]);
      WaitingAfter(pre0, pre, roots, gone, now, post, c);
      CardMinus(Waiting(pre0, Parents(pre0[c])), heard);
    }
  }

  lemma SoundKept(pre0: Recs, pre: Recs, roots: set<Id>, gone: set<Id>, now: int, post: Recs, c: Id)
    requires ParentsPresent(pre0) && Ending(pre0, pre, roots) && Settled(pre, roots, gone, now, post) && Sound(pre0, c)
    ensures Sound(post, c)
  {
    hide Told, NodeOk, Waiting, AnyDead, Parents;
    SettledOne(pre, roots, gone, now, post, c);
    if post[c].task.status.Blocked? {
      var heard := Heard(pre, roots, gone, c);
      var w := Waiting(pre0, Parents(pre0[c]));
      BlockedAfter(pre, roots, DeadRoots(pre, roots), c in gone, heard, now, pre[c], post[c]);
      WaitingAfter(pre0, pre, roots, gone, now, post, c);
      CardMinus(w, heard);
      if !pre0[c].task.policy.IgnoreParentFail? && !AnyDead(pre0, Parents(pre0[c]))
         && (heard == {} || !DeadRoots(pre, roots)) {
        DeadAfter(pre0, pre, roots, gone, now, post, c);
      }
      NodeSettled(pre0[c], pre[c], post[c], c in roots, c in gone, pre, roots, heard, now, w, pre0, post, c);
    }
  }

  /** Changes that leave every status and every other record's count and parents alone, except for one task. */
  ghost predicate OnlyTouches(a: Recs, b: Recs, id: Id) {
    id in a && id in b && b == a[id := b[id]] && b[id].task.dependsOn == a[id].task.dependsOn
    && b[id].task.policy == a[id].task.policy && !IsFinal(StatusOf(a, id)) && !IsFinal(StatusOf(b, id))
  }

  lemma TouchFrame(a: Recs, b: Recs, id: Id, ps: set<Id>)
    requires OnlyTouches(a, b, id)
    ensures Waiting(b, ps) == Waiting(a, ps) && AnyDead(b, ps) == AnyDead(a, ps)
  {}

  /** Waking or recounting one blocked task keeps the others sound and overcounted. */
  lemma TouchKeeps(a: Recs, b: Recs, id: Id)
    requires Overcounted(a) && OnlyTouches(a, b, id)
    requires StatusOf(b, id).Blocked? ==> b[id].pendingParents >= |Waiting(a, Parents(a[id]))|
    ensures Overcounted(b) && forall c :: c != id && Sound(a, c) ==> Sound(b, c)
  {
    hide Waiting, NodeOk;
    forall c | c in b
      ensures Parents(b[c]) <= b.Keys
      ensures StatusOf(b, c).Blocked? ==> b[c].pendingParents >= |Waiting(b, Parents(b[c]))|
      ensures c != id && Sound(a, c) ==> Sound(b, c)
    {
      TouchOne(a, b, id, c);
    }
  }

  lemma TouchOne(a: Recs, b: Recs, id: Id, c: Id)
    requires Overcounted(a) && OnlyTouches(a, b, id) && c in b
    requires StatusOf(b, id).Blocked? ==> b[id].pendingParents >= |Waiting(a, Parents(a[id]))|
    ensures Parents(b[c]) <= b.Keys
    ensures StatusOf(b, c).Blocked? ==> b[c].pendingParents >= |Waiting(b, Parents(b[c]))|
    ensures c != id && Sound(a, c) ==> Sound(b, c)
  {
    hide Waiting, AnyDead;
    assert Parents(b[c]) == Parents(a[c]);
    TouchFrame(a, b, id, Parents(a[c]));
  }

  /** In a consistent state the decision on a blocked task is: keep waiting, with the count it already has. */
  lemma NothingToRepair(recs: Recs, id: Id)
    requires GraphInv(recs) && id in recs && StatusOf(recs, id).Blocked?
    ensures InitialStatus(recs, Parents(recs[id]), recs[id].task.policy).Blocked?
    ensures recs[id].pendingParents == |Waiting(recs, Parents(recs[id]))|
  {
    assert NodeOk(recs, id);
  }

  /** A task recounted while still waiting is sound. */
  lemma RecountedSound(a: Recs, b: Recs, id: Id)
    requires OnlyTouches(a, b, id) && InitialStatus(a, Parents(a[id]), a[id].task.policy).Blocked?
    requires b[id].pendingParents == |Waiting(a, Parents(a[id]))|
    ensures Sound(b, id)
  {
    TouchFrame(a, b, id, Parents(a[id]));
  }

  // ---- what the loops need ----

  ghost function ExpiredIn(recs: Recs, seen: set<Id>, now: int): set<Id> {
    set x | x in recs && x in seen && Expired(recs[x], now)
  }

  lemma AllReaped(c: Config, recs: Recs, seen: set<Id>, now: int)
    requires seen == recs.Keys
    ensures ExpiredIn(recs, seen, now) == ExpiredIds(recs, {}, now)
    ensures forall post :: ReapedSoFar(c, recs, seen, now, post) <==>
              Outcome(Reaped(c, recs, recs.Keys - {}, now), Ended(c, recs, recs.Keys - {}, now), now, post)
  {
    assert recs.Keys - {} == recs.Keys;
  }

  ghost predicate ReapedOne(c: Config, before: Recs, id: Id, now: int, after: Recs) {
    id in before
    && var r := ReapRec(c, before[id], now);
       if IsFinal(r.task.status) then Outcome(before[id := r], {id}, now, after) else after == before[id := r]
  }

  /** One more record visited: the books stay straight whatever the order. */
  lemma ReapOneKeeps(c: Config, recs0: Recs, seen: set<Id>, now: int, before: Recs, id: Id, after: Recs, reaped: bool)
    requires before.Keys == recs0.Keys && id in before && id !in seen && reaped == Expired(before[id], now)
    requires if reaped then ReapedOne(c, before, id, now, after) else after == before
    ensures after.Keys == recs0.Keys
    ensures GraphInv(recs0) && ReapedSoFar(c, recs0, seen, now, before) ==>
              ReapedSoFar(c, recs0, seen + {id}, now, after)
              && |ExpiredIn(recs0, seen + {id}, now)| == |ExpiredIn(recs0, seen, now)| + if reaped then 1 else 0
    ensures Overcounted(before) ==> Overcounted(after)
  {
    hide GraphInv, Overcounted, ReapedSoFar, ReapRec, Doomed;
    if reaped && IsFinal(ReapRec(c, before[id], now).task.status) {
      OutcomeSameDeps(before[id := ReapRec(c, before[id], now)], {id}, now, after);
    }
    if GraphInv(recs0) && ReapedSoFar(c, recs0, seen, now, before) {
      NotYetReaped(c, recs0, seen, now, before, id);
      if !reaped {
        assert ExpiredIn(recs0, seen + {id}, now) == ExpiredIn(recs0, seen, now);
        ReapedSkip(c, recs0, seen, now, before, id);
      } else {
        assert ExpiredIn(recs0, seen + {id}, now) == ExpiredIn(recs0, seen, now) + {id};
        if IsFinal(ReapRec(c, before[id], now).task.status) {
          ReapedMoreEnded(c, recs0, seen, now, before, id, after);
        } else {
          ReapedMoreReturned(c, recs0, seen, now, before, id);
        }
      }
    }
    if reaped && Overcounted(before) {
      OverReap(c, before, id, now, after);
    }
  }

  lemma OverReap(c: Config, before: Recs, id: Id, now: int, after: Recs)
    requires Overcounted(before) && id in before && Expired(before[id], now) && ReapedOne(c, before, id, now, after)
    ensures Overcounted(after)
  {
    hide Overcounted, ReapRec, Doomed;
    var r := ReapRec(c, before[id], now);
    ReapShape(c, before[id], now);
    if IsFinal(r.task.status) {
      EndOne(before, id, r);
      OverKept(before, before[id := r], {id}, Doomed(before[id := r], {id}), now, after);
    } else {
      SettledIdle(after, now);
      OverKept(before, after, {}, {}, now, after);
    }
  }

  lemma MissingParent(recs: Recs, id: Id, p: Id)
    requires id in recs && p in recs[id].task.dependsOn && p !in recs
    ensures !ParentsPresent(recs)
  {
    assert p in Parents(recs[id]);
  }

  /** What the decision on a blocked task tells about the state before and after acting on it. */
  lemma RepairDecision(recs: Recs, id: Id, now: int, d: SubmitDecision)
    requires id in recs && StatusOf(recs, id).Blocked?
    requires d.status == InitialStatus(recs, Parents(recs[id]), recs[id].task.policy)
    requires !d.status.Canceled? ==> d.pendingParents == |Waiting(recs, Parents(recs[id]))|
    ensures d.status.Canceled? || d.status.Blocked? || d.status.Pending?
    ensures GraphInv(recs) ==> d.status.Blocked? && recs[id := recs[id].(pendingParents := d.pendingParents)] == recs
    ensures Overcounted(recs) && d.status.Blocked? ==>
              var after := recs[id := recs[id].(pendingParents := d.pendingParents)];
              Overcounted(after) && Sound(after, id) && forall c :: Sound(recs, c) ==> Sound(after, c)
    ensures Overcounted(recs) && d.status.Pending? ==>
              var after := recs[id := recs[id].(task := recs[id].task.(status := Pending), pendingParents := 0)];
              Overcounted(after) && Sound(after, id) && forall c :: Sound(recs, c) ==> Sound(after, c)
  {
    hide GraphInv, Overcounted, Sound;
    if GraphInv(recs) {
      NothingToRepair(recs, id);
    }
    if Overcounted(recs) && !d.status.Canceled? {
      RepairWaiting(recs, id, d);
    }
  }

  lemma RepairWaiting(recs: Recs, id: Id, d: SubmitDecision)
    requires Overcounted(recs) && id in recs && StatusOf(recs, id).Blocked? && !d.status.Canceled?
    requires d.status == InitialStatus(recs, Parents(recs[id]), recs[id].task.policy)
    requires d.pendingParents == |Waiting(recs, Parents(recs[id]))|
    ensures d.status.Blocked? ==>
              var after := recs[id := recs[id].(pendingParents := d.pendingParents)];
              Overcounted(after) && Sound(after, id) && forall c :: Sound(recs, c) ==> Sound(after, c)
    ensures d.status.Pending? ==>
              var after := recs[id := recs[id].(task := recs[id].task.(status := Pending), pendingParents := 0)];
              Overcounted(after) && Sound(after, id) && forall c :: Sound(recs, c) ==> Sound(after, c)
  {
    hide Overcounted, NodeOk, InitialStatus, Waiting;
    if d.status.Blocked? {
      var after := recs[id := recs[id].(pendingParents := d.pendingParents)];
      TouchKeeps(recs, after, id);
      RecountedSound(recs, after, id);
    } else {
      var after := recs[id := recs[id].(task := recs[id].task.(status := Pending), pendingParents := 0)];
      TouchKeeps(recs, after, id);
    }
  }

  lemma RepairCanceled(before: Recs, id: Id, r: Rec, now: int, after: Recs)
    requires Overcounted(before) && id in before && LegalEnd(before[id], r)
             && Outcome(before[id := r], {id}, now, after)
    ensures Overcounted(after) && Sound(after, id) && forall c :: Sound(before, c) ==> Sound(after, c)
  {
    hide NodeOk, Doomed, Told;
    var pre := before[id := r];
    var gone := Doomed(pre, {id});
    EndOne(before, id, r);
    OverKept(before, pre, {id}, gone, now, after);
    SettledOne(pre, {id}, gone, now, after, id);
    ToldStatus(pre, {id}, DeadRoots(pre, {id}), id in gone, Heard(pre, {id}, gone, id), now, pre[id], after[id]);
    forall c | Sound(before, c) ensures Sound(after, c) {
      SoundKept(before, pre, {id}, gone, now, after, c);
    }
  }
}
