/** Statuses, tasks and stored records shared by every backend. */
module Model {

  datatype Option<+T> = None | Some(value: T)

  type Id = string
  type Token = string
  type Key = string
  type Bytes = string

  /** The seven statuses (taskgate.go). */
  datatype Status = Blocked | Pending | Running | Retrying | Completed | Failed | Canceled

  predicate IsFinal(s: Status) {
    s.Completed? || s.Failed? || s.Canceled?
  }

  /** Final without success: what cancels fail-fast children. */
  predicate Dead(s: Status) {
    s.Failed? || s.Canceled?
  }

  /** The legal-transition table; final statuses have no outgoing edge. */
  predicate CanTransition(from: Status, to: Status) {
    match from
    case Blocked => to.Pending? || to.Canceled?
    case Pending => to.Running? || to.Canceled?
    case Running => to.Completed? || to.Failed? || to.Retrying? || to.Canceled? || to.Pending?
    case Retrying => to.Running? || to.Canceled?
    case _ => false
  }

  /** Everything other than IgnoreParentFail behaves as fail-fast. */
  datatype Policy = Unset | FailFast | IgnoreParentFail

  /** The fixed texts the brokers store in LastError, kept as structure instead of wording. */
  datatype ErrText =
    | NoError
    | Message(text: string)
    | ParentFailed(parent: Id)
    | ParentCanceled(parent: Id)
    | ThrottledTimes(times: int)
    | LeaseExpiredTimes(times: int)
    | CanceledByRequest

  datatype Task = Task(
    id: Id, businessKey: Key, replayOf: Id, typ: string, queue: string, payload: Option<Bytes>,
    status: Status, result: Option<Bytes>, lastError: ErrText,
    attempts: int, maxRetry: int, leaseLost: int, throttled: int,
    runAt: int, dependsOn: seq<Id>, policy: Policy, leaseToken: Token,
    createdAt: int, startedAt: int, finishedAt: int)

  /** A task plus the fields only the backend sees. Times are integer milliseconds, 0 is the zero time. */
  datatype Rec = Rec(task: Task, pendingParents: nat, leaseUntil: int, cancelRequested: bool)

  type Recs = map<Id, Rec>

  /** Distinct parents. */
  function ParentSet(deps: seq<Id>): set<Id> {
    set p | p in deps
  }

  function Parents(r: Rec): set<Id> {
    ParentSet(r.task.dependsOn)
  }

  function StatusOf(recs: Recs, id: Id): Status
    requires id in recs
  {
    recs[id].task.status
  }

  ghost predicate NoDup<T>(s: seq<T>) {
    forall i, j :: 0 <= i < j < |s| ==> s[i] != s[j]
  }

  ghost function Elems<T>(s: seq<T>): set<T> {
    set x | x in s
  }

  lemma {:induction false} NoDupLength<T>(s: seq<T>, all: set<T>)
    requires NoDup(s) && forall x :: x in s ==> x in all
    ensures |s| <= |all|
  {
    if s != [] {
      var last := s[|s| - 1];
      NoDupLength(s[..|s| - 1], all - {last});
    }
  }

  lemma {:induction false} NoDupCard<T>(s: seq<T>)
    requires NoDup(s)
    ensures |Elems(s)| == |s|
  {
    if s != [] {
      var last := s[|s| - 1];
      NoDupCard(s[..|s| - 1]);
      assert Elems(s) == Elems(s[..|s| - 1]) + {last};
    }
  }

  lemma ElemsStep<T>(s: seq<T>, k: nat)
    requires NoDup(s) && k < |s|
    ensures s[k] !in Elems(s[..k]) && Elems(s[..k + 1]) == Elems(s[..k]) + {s[k]}
  {
    assert s[..k + 1] == s[..k] + [s[k]];
  }
}
