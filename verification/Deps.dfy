/** The decision functions of deps.go. */
module Deps {
  import opened Model

  datatype ParentState = ParentState(id: Id, status: Status)
  datatype SubmitDecision = SubmitDecision(status: Status, pendingParents: nat, lastError: ErrText)
  datatype ChildAction = ChildNone | ChildWake | ChildCancel

  function ParentFailureReason(parent: Id, status: Status): ErrText {
    if status.Canceled? then ParentCanceled(parent) else ParentFailed(parent)
  }

  /** What a parent reaching `parentStatus` means for one child: its new count and the action to take. */
  function DecideOnParentFinal(parentStatus: Status, childStatus: Status, policy: Policy, pendingParents: nat)
    : (r: (nat, ChildAction))
  {
    if IsFinal(childStatus) then (pendingParents, ChildNone)
    else if !IsFinal(parentStatus) then (pendingParents, ChildNone)
    else if !(parentStatus.Completed? || policy.IgnoreParentFail?) then (pendingParents, ChildCancel)
    else
      var left: nat := if pendingParents > 0 then pendingParents - 1 else 0;
      if left == 0 && childStatus.Blocked? then (0, ChildWake) else (left, ChildNone)
  }

  /** The ids among the first n mentions. */
  ghost function Mentioned(parents: seq<ParentState>, n: nat): set<Id>
    requires n <= |parents|
  {
    if n == 0 then {} else Mentioned(parents, n - 1) + {parents[n - 1].id}
  }

  /** Position i is the first mention of its parent. */
  ghost predicate FirstMention(parents: seq<ParentState>, i: nat)
    requires i < |parents|
  {
    parents[i].id !in Mentioned(parents, i)
  }

  /** The distinct unfinished parents among the first n mentions, each taken at its first mention. */
  ghost function Unfinished(parents: seq<ParentState>, n: nat): set<Id>
    requires n <= |parents|
  {
    if n == 0 then {}
    else Unfinished(parents, n - 1) +
         (if FirstMention(parents, n - 1) && !IsFinal(parents[n - 1].status) then {parents[n - 1].id} else {})
  }

  /** Position i holds a dead parent at its first mention. */
  ghost predicate DeadMention(parents: seq<ParentState>, i: nat)
    requires i < |parents|
  {
    FirstMention(parents, i) && Dead(parents[i].status)
  }

  ghost predicate NoneDead(parents: seq<ParentState>, n: nat)
    requires n <= |parents|
  {
    n == 0 || (NoneDead(parents, n - 1) && !DeadMention(parents, n - 1))
  }

  lemma DeadStays(parents: seq<ParentState>, i: nat, n: nat)
    requires i < n <= |parents| && DeadMention(parents, i)
    ensures !NoneDead(parents, n)
  {}

  /** e names the first dead parent. */
  ghost predicate NamesFirstDead(parents: seq<ParentState>, e: ErrText) {
    exists i: nat :: i < |parents| && DeadMention(parents, i) && NoneDead(parents, i)
                     && e == ParentFailureReason(parents[i].id, parents[i].status)
  }

  /** Fail-fast and some parent dead: canceled, naming the first dead one. Otherwise blocked on the distinct
      unfinished parents, or pending when there are none. */
  method DecideOnSubmit(parents: seq<ParentState>, policy: Policy) returns (d: SubmitDecision)
    ensures d.status.Canceled? <==> !policy.IgnoreParentFail? && !NoneDead(parents, |parents|)
    ensures d.status.Canceled? ==> d.pendingParents == 0 && NamesFirstDead(parents, d.lastError)
    ensures !d.status.Canceled? ==> d.pendingParents == |Unfinished(parents, |parents|)|
    ensures !d.status.Canceled? ==> d.status == if d.pendingParents > 0 then Blocked else Pending
  {
    hide Mentioned, Unfinished, NoneDead, ParentFailureReason;
    var seen: set<Id> := {};
    var notFinal: nat := 0;
    MentionsNone(parents);
    for i := 0 to |parents|
      invariant seen == Mentioned(parents, i)
      invariant notFinal == |Unfinished(parents, i)|
      invariant !policy.IgnoreParentFail? ==> NoneDead(parents, i)
    {
      var p := parents[i];
      UnfinishedStep(parents, i);
      if p.id in seen {
        assert seen + {p.id} == seen;
      } else {
        seen := seen + {p.id};
        if Dead(p.status) {
          if !policy.IgnoreParentFail? {
            DeadStays(parents, i, |parents|);
            return SubmitDecision(Canceled, 0, ParentFailureReason(p.id, p.status));
          }
        } else if !IsFinal(p.status) {
          notFinal := notFinal + 1;
        }
      }
    }
    d := SubmitDecision(if notFinal > 0 then Blocked else Pending, notFinal, NoError);
  }

  lemma UnfinishedMentioned(parents: seq<ParentState>, n: nat)
    requires n <= |parents|
    ensures Unfinished(parents, n) <= Mentioned(parents, n)
  {}

  lemma MentionsNone(parents: seq<ParentState>)
    ensures Mentioned(parents, 0) == {} && |Unfinished(parents, 0)| == 0 && NoneDead(parents, 0)
  {}

  /** What the i-th mention adds. */
  lemma UnfinishedStep(parents: seq<ParentState>, i: nat)
    requires i < |parents|
    ensures Mentioned(parents, i + 1) == Mentioned(parents, i) + {parents[i].id}
    ensures |Unfinished(parents, i + 1)| ==
            |Unfinished(parents, i)| + if FirstMention(parents, i) && !IsFinal(parents[i].status) then 1 else 0
    ensures NoneDead(parents, i + 1) <==> NoneDead(parents, i) && !DeadMention(parents, i)
  {
    UnfinishedMentioned(parents, i);
  }

  /** The statuses were read from one table. */
  ghost predicate FromTable(recs: Recs, deps: seq<Id>, parents: seq<ParentState>) {
    |parents| == |deps|
    && forall i :: 0 <= i < |deps| ==> deps[i] in recs && parents[i] == ParentState(deps[i], StatusOf(recs, deps[i]))
  }

  /** Then the count is the number of distinct unfinished parents, and a dead mention is a dead parent. */
  lemma {:induction false} MentionsFromTable(recs: Recs, deps: seq<Id>, parents: seq<ParentState>, n: nat, p: Id)
    requires FromTable(recs, deps, parents) && n <= |deps|
    ensures p in Mentioned(parents, n) <==> p in deps[..n]
    ensures p in Unfinished(parents, n) <==> p in deps[..n] && !IsFinal(StatusOf(recs, p))
  {
    if n > 0 {
      MentionsFromTable(recs, deps, parents, n - 1, p);
      assert deps[..n] == deps[..n - 1] + [deps[n - 1]];
    }
  }

  lemma {:induction false} NoneDeadFromTable(recs: Recs, deps: seq<Id>, parents: seq<ParentState>, n: nat)
    requires FromTable(recs, deps, parents) && n <= |deps|
    ensures NoneDead(parents, n) <==> forall p :: p in deps[..n] ==> !Dead(StatusOf(recs, p))
  {
    if n > 0 {
      NoneDeadFromTable(recs, deps, parents, n - 1);
      assert deps[..n] == deps[..n - 1] + [deps[n - 1]];
      assert deps[n - 1] in deps[..n];
      MentionsFromTable(recs, deps, parents, n - 1, deps[n - 1]);
    }
  }

  /** The distinct ids in order of first mention. */
  function Distinct(ids: seq<Id>): seq<Id> {
    if ids == [] then []
    else
      var init, last := ids[..|ids| - 1], ids[|ids| - 1];
      Distinct(init) + if last in init then [] else [last]
  }

  lemma {:induction false} DistinctElems(ids: seq<Id>)
    ensures NoDup(Distinct(ids)) && ParentSet(Distinct(ids)) == ParentSet(ids)
  {
    if ids != [] {
      var init, last := ids[..|ids| - 1], ids[|ids| - 1];
      DistinctElems(init);
      assert ids == init + [last];
      assert forall x :: x in Distinct(init) <==> x in ParentSet(Distinct(init));
      assert forall x :: x in init <==> x in ParentSet(init);
    }
  }

  /** The first dead task among ids. */
  function FirstDead(recs: Recs, ids: seq<Id>): Option<Id> {
    if ids == [] then None
    else
      var last, f := ids[|ids| - 1], FirstDead(recs, ids[..|ids| - 1]);
      if f.Some? then f else if last in recs && Dead(StatusOf(recs, last)) then Some(last) else None
  }

  /** The first id without a task. */
  function FirstUnknown(recs: Recs, ids: seq<Id>): Option<Id> {
    if ids == [] then None
    else
      var last, f := ids[|ids| - 1], FirstUnknown(recs, ids[..|ids| - 1]);
      if f.Some? then f else if last !in recs then Some(last) else None
  }

  lemma {:induction false} FirstOf(recs: Recs, ids: seq<Id>)
    ensures var f := FirstDead(recs, ids);
            (f.Some? ==> f.value in ids && f.value in recs && Dead(StatusOf(recs, f.value)))
            && (f.None? ==> forall p :: p in ids && p in recs ==> !Dead(StatusOf(recs, p)))
    ensures var f := FirstUnknown(recs, ids);
            (f.Some? ==> f.value in ids && f.value !in recs) && (f.None? ==> forall p :: p in ids ==> p in recs)
  {
    if ids != [] {
      FirstOf(recs, ids[..|ids| - 1]);
      assert ids == ids[..|ids| - 1] + [ids[|ids| - 1]];
    }
  }

  /** The element at i is the first of its kind when nothing before it is. */
  lemma {:induction false} FirstFound(recs: Recs, ids: seq<Id>, i: nat)
    requires i < |ids|
    ensures ids[i] in recs && Dead(StatusOf(recs, ids[i])) && FirstDead(recs, ids[..i]).None? ==>
            FirstDead(recs, ids) == Some(ids[i])
    ensures ids[i] !in recs && FirstUnknown(recs, ids[..i]).None? ==> FirstUnknown(recs, ids) == Some(ids[i])
    decreases |ids|
  {
    var n := |ids| - 1;
    if i < n {
      FirstFound(recs, ids[..n], i);
      assert ids[..n][..i] == ids[..i];
    }
  }

  lemma FirstAppend(recs: Recs, ids: seq<Id>, last: Id)
    ensures FirstUnknown(recs, ids + [last])
            == var f := FirstUnknown(recs, ids); if f.Some? then f else if last !in recs then Some(last) else None
    ensures FirstDead(recs, ids + [last])
            == var f := FirstDead(recs, ids);
               if f.Some? then f else if last in recs && Dead(StatusOf(recs, last)) then Some(last) else None
  {
    assert (ids + [last])[..|ids|] == ids;
  }

  lemma DistinctAppend(ids: seq<Id>, last: Id)
    ensures Distinct(ids + [last]) == if last in ids then Distinct(ids) else Distinct(ids) + [last]
  {
    assert (ids + [last])[..|ids|] == ids;
  }

  /** De-duplication keeps the first of either kind. */
  lemma {:induction false} DistinctFirst(recs: Recs, ids: seq<Id>)
    ensures FirstDead(recs, Distinct(ids)) == FirstDead(recs, ids)
            && FirstUnknown(recs, Distinct(ids)) == FirstUnknown(recs, ids)
  {
    if ids != [] {
      var init, last := ids[..|ids| - 1], ids[|ids| - 1];
      DistinctFirst(recs, init);
      FirstOf(recs, init);
      hide FirstDead, FirstUnknown, Distinct;
      assert ids == init + [last];
      DistinctAppend(init, last);
      FirstAppend(recs, init, last);
      FirstAppend(recs, Distinct(init), last);
    } else {
      assert Distinct(ids) == ids;
    }
  }
}
