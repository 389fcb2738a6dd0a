/** Any number of claim loops sharing one quota key, limit and period. Each step is one of the points where a loop can
    be preempted; what the limiter, the queue, the quota medium and the context do is free. */
module ClaimLoops {
  import opened Model
  import opened Quota

  type LoopId = nat

  /** Where a loop is. A reservation is named by its serial number. */
  datatype Pc =
    | Idle                            // about to acquire a slot
    | HasSlot                         // waiting for a rate token
    | HasToken                        // about to look at the quota
    | Dequeuing(res: Option<nat>)     // about to dequeue, holding a reservation if the queue has a quota
    | Sleeping                        // backing off without a slot; a canceled sleep ends the loop
    | Cooling                         // pausing after a failed dequeue; the loop goes on either way
    | Exited

  predicate HoldsSlot(pc: Pc) {
    pc.HasSlot? || pc.HasToken? || pc.Dequeuing?
  }

  /** What became of a reservation: in a loop's hands, spent on one handler start, given back, or lost in a failed
      release. */
  datatype Fate = Held(by_: LoopId) | Used | Released | Leaked

  /** at: the clock reading the reservation was made at. */
  datatype Entry = Entry(at: int, window: int, fate: Fate)

  /** slots: slots taken from the loop's own limiter; workers: handlers running. */
  datatype Loop = Loop(pc: Pc, slots: int, workers: int)

  datatype Settings = Settings(limit: int, period: int, capacity: map<LoopId, int>, quotaed: set<LoopId>)

  /** now in seconds; wins is the shared table; log is the history of reservations, by serial number; top is the latest
      window any reservation was tried in. */
  datatype Sys = Sys(now: int, wins: Windows, loops: map<LoopId, Loop>, log: seq<Entry>, top: Option<int>)

  datatype Action =
    | Tick(now: int)
    | Acquire(i: LoopId, ok: bool)
    | Token(i: LoopId, ok: bool)
    | SkipQuota(i: LoopId)
    | QueueEmpty(i: LoopId)
    | ReserveFails(i: LoopId, stop: bool)
    | Reserve(i: LoopId)
    | Wake(i: LoopId, ok: bool)
    | DequeueFails(i: LoopId, released: bool, stop: bool)
    | Start(i: LoopId)
    | WorkerEnds(i: LoopId)

  function Win(cfg: Settings, s: Sys): int
    requires cfg.period >= 1
  {
    WindowOf(s.now, cfg.period)
  }

  /** The latest window after a try in window w. */
  function Later(top: Option<int>, w: int): Option<int> {
    if top.None? || top.value < w then Some(w) else top
  }

  /** Gives the slot back and goes to pc. */
  function Freed(l: Loop, pc: Pc): Loop {
    l.(pc := pc, slots := l.slots - 1)
  }

  ghost predicate Next(cfg: Settings, s: Sys, act: Action, s': Sys)
    requires cfg.period >= 1
  {
    if act.Tick? then s' == s.(now := act.now)
    else act.i in s.loops && LoopStep(cfg, s, act, s.loops[act.i], s')
  }

  ghost predicate LoopStep(cfg: Settings, s: Sys, act: Action, l: Loop, s': Sys)
    requires cfg.period >= 1
  {
    match act
    case Acquire(i, ok) =>
      l.pc.Idle?
      && if ok
         then i in cfg.capacity && l.slots < cfg.capacity[i]
              && s' == Put(s, i, l.(pc := HasSlot, slots := l.slots + 1))
         else s' == Put(s, i, l.(pc := Exited))
    case Token(i, ok) => l.pc.HasSlot? && s' == Put(s, i, if ok then l.(pc := HasToken) else Freed(l, Exited))
    case SkipQuota(i) => l.pc.HasToken? && i !in cfg.quotaed && s' == Put(s, i, l.(pc := Dequeuing(None)))
    case QueueEmpty(i) => l.pc.HasToken? && i in cfg.quotaed && s' == Put(s, i, Freed(l, Sleeping))
    case ReserveFails(i, stop) =>
      l.pc.HasToken? && i in cfg.quotaed && s' == Put(s, i, Freed(l, if stop then Exited else Sleeping))
    case Reserve(i) =>
      l.pc.HasToken? && i in cfg.quotaed
      && var (wins, granted) := Reserving(s.wins, Win(cfg, s), cfg.limit, cfg.period);
         var s1 := s.(wins := wins, top := Later(s.top, Win(cfg, s)));
         s' == if granted
               then Put(s1.(log := s.log + [Entry(s.now, Win(cfg, s), Held(i))]), i, l.(pc := Dequeuing(Some(|s.log|))))
               else Put(s1, i, Freed(l, Sleeping))
    case Wake(i, ok) =>
      (l.pc.Sleeping? || l.pc.Cooling?)
      && s' == Put(s, i, l.(pc := if l.pc.Sleeping? && !ok then Exited else Idle))
    case DequeueFails(i, released, stop) =>
      l.pc.Dequeuing?
      && var l' := Freed(l, if stop then Exited else Cooling);
         (match l.pc.res
          case None => s' == Put(s, i, l')
          case Some(n) =>
            n < |s.log|
            && s' == if released
                     then Put(s.(wins := Releasing(s.wins, s.log[n].window), log := Settle(s.log, n, Released)), i, l')
                     else Put(s.(log := Settle(s.log, n, Leaked)), i, l'))
    case Start(i) =>
      l.pc.Dequeuing?
      && var l' := l.(pc := Idle, workers := l.workers + 1);
         (match l.pc.res
          case None => s' == Put(s, i, l')
          case Some(n) => n < |s.log| && s' == Put(s.(log := Settle(s.log, n, Used)), i, l'))
    case WorkerEnds(i) => l.workers > 0 && s' == Put(s, i, l.(workers := l.workers - 1, slots := l.slots - 1))
    case Tick(_) => false
  }

  function Put(s: Sys, i: LoopId, l: Loop): Sys {
    s.(loops := s.loops[i := l])
  }

  function Settle(log: seq<Entry>, n: nat, f: Fate): seq<Entry>
    requires n < |log|
  {
    log[n := log[n].(fate := f)]
  }

  // ---------------------------------------------------------------------------------------------
  // Counting reservations
  // ---------------------------------------------------------------------------------------------

  predicate Charges(e: Entry, w: int) {
    e.window == w && !e.fate.Released?
  }

  /** Reservations of window w that were not given back. */
  ghost function Charged(log: seq<Entry>, w: int): nat {
    if log == [] then 0 else Charged(log[..|log| - 1], w) + if Charges(log[|log| - 1], w) then 1 else 0
  }

  /** Handler starts paid by window w. */
  ghost function Starts(log: seq<Entry>, w: int): nat {
    if log == [] then 0
    else Starts(log[..|log| - 1], w) + if log[|log| - 1].window == w && log[|log| - 1].fate.Used? then 1 else 0
  }

  lemma {:induction false} StartsCharged(log: seq<Entry>, w: int)
    ensures Starts(log, w) <= Charged(log, w)
  {
    if log != [] {
      StartsCharged(log[..|log| - 1], w);
    }
  }

  lemma ChargedAppend(log: seq<Entry>, e: Entry, w: int)
    ensures Charged(log + [e], w) == Charged(log, w) + if Charges(e, w) then 1 else 0
  {
    assert (log + [e])[..|log|] == log;
  }

  lemma {:induction false} ChargedSettle(log: seq<Entry>, n: nat, f: Fate, w: int)
    requires n < |log|
    ensures Charged(Settle(log, n, f), w) ==
            Charged(log, w) - (if Charges(log[n], w) then 1 else 0) + (if Charges(log[n].(fate := f), w) then 1 else 0)
    ensures Charges(log[n], w) ==> Charged(log, w) >= 1
  {
    var last := |log| - 1;
    var log' := Settle(log, n, f);
    if n == last {
      assert log'[..last] == log[..last];
    } else {
      ChargedSettle(log[..last], n, f, w);
      assert log'[..last] == Settle(log[..last], n, f);
    }
  }

  // ---------------------------------------------------------------------------------------------
  // The invariant
  // ---------------------------------------------------------------------------------------------

  ghost predicate WindowOk(cfg: Settings, s: Sys, w: int)
    requires cfg.period >= 1
  {
    Charged(s.log, w) <= cfg.limit
    && if w in s.wins then s.wins[w] == Charged(s.log, w)
       else Charged(s.log, w) == 0 || (s.top.Some? && Stale(w, s.top.value, cfg.period))
  }

  ghost predicate AllWindows(cfg: Settings, s: Sys)
    requires cfg.period >= 1
  {
    forall w: int :: WindowOk(cfg, s, w)
  }

  /** Table and log after a reservation by loop i. */
  ghost function Reserved(cfg: Settings, s: Sys, i: LoopId): Sys
    requires cfg.period >= 1
  {
    var (wins, granted) := Reserving(s.wins, Win(cfg, s), cfg.limit, cfg.period);
    s.(wins := wins, top := Later(s.top, Win(cfg, s)),
       log := if granted then s.log + [Entry(s.now, Win(cfg, s), Held(i))] else s.log)
  }

  ghost predicate LoopOk(cfg: Settings, s: Sys, i: LoopId)
    requires i in s.loops
  {
    var l := s.loops[i];
    l.workers >= 0 && l.slots == l.workers + (if HoldsSlot(l.pc) then 1 else 0)
    && (l.pc.Dequeuing? && l.pc.res.Some? ==> l.pc.res.value < |s.log| && s.log[l.pc.res.value].fate == Held(i))
    && (l.pc.Dequeuing? && i in cfg.quotaed ==> l.pc.res.Some?)
  }

  /** A reservation in a loop's hands is the one that loop is dequeuing with. */
  ghost predicate HeldOk(s: Sys, n: nat)
    requires n < |s.log|
  {
    s.log[n].fate.Held? ==> var i := s.log[n].fate.by_; i in s.loops && s.loops[i].pc == Dequeuing(Some(n))
  }

  ghost predicate Inv(cfg: Settings, s: Sys)
    requires cfg.period >= 1
  {
    AllWindows(cfg, s) && BooksOk(cfg, s)
  }

  /** The clock may go anywhere as long as the window is not more than two periods before the latest one tried. */
  ghost predicate InReach(cfg: Settings, s: Sys)
    requires cfg.period >= 1
  {
    s.top.Some? ==> !Stale(Win(cfg, s), s.top.value, cfg.period)
  }

  lemma WindowsReserve(cfg: Settings, s: Sys, i: LoopId)
    requires cfg.period >= 1 && AllWindows(cfg, s) && InReach(cfg, s)
    ensures AllWindows(cfg, Reserved(cfg, s, i))
  {
    var win := Win(cfg, s);
    var s', e := Reserved(cfg, s, i), Entry(s.now, win, Held(i));
    NeverStale(s.wins, win, cfg.period);
    assert WindowOk(cfg, s, win);
    forall w: int ensures WindowOk(cfg, s', w) {
      assert WindowOk(cfg, s, w);
      assert w in StaleIn(s.wins, win, cfg.period) <==> w in s.wins && Stale(w, win, cfg.period);
      ChargedAppend(s.log, e, w);
    }
  }

  lemma WindowsSettle(cfg: Settings, s: Sys, n: nat, f: Fate)
    requires cfg.period >= 1 && n < |s.log| && s.log[n].fate.Held? && AllWindows(cfg, s)
    ensures f.Released? ==> AllWindows(cfg, s.(wins := Releasing(s.wins, s.log[n].window), log := Settle(s.log, n, f)))
    ensures !f.Released? ==> AllWindows(cfg, s.(log := Settle(s.log, n, f)))
  {
    var s1 := s.(wins := Releasing(s.wins, s.log[n].window), log := Settle(s.log, n, f));
    var s2 := s.(log := Settle(s.log, n, f));
    forall w: int ensures (f.Released? ==> WindowOk(cfg, s1, w)) && (!f.Released? ==> WindowOk(cfg, s2, w)) {
      assert WindowOk(cfg, s, w);
      ChargedSettle(s.log, n, f, w);
    }
  }

  /** The loops and the log, without the table of windows. */
  ghost predicate BooksOk(cfg: Settings, s: Sys) {
    (forall i :: i in s.loops ==> LoopOk(cfg, s, i) && i in cfg.capacity && s.loops[i].slots <= cfg.capacity[i])
    && (forall n :: 0 <= n < |s.log| ==> HeldOk(s, n))
  }

  /** Loop i moves to l and the log to log': unchanged, one reservation more for i, or i's reservation settled. */
  ghost predicate Moves(s: Sys, i: LoopId, l: Loop, log: seq<Entry>) {
    i in s.loops
    && var res := if s.loops[i].pc.Dequeuing? then s.loops[i].pc.res else None;
       (log == s.log && l.pc.Dequeuing? && l.pc == s.loops[i].pc)
       || (log == s.log && res.None? && (l.pc.Dequeuing? ==> l.pc.res.None?))
       || (res.None? && l.pc == Dequeuing(Some(|s.log|)) && |log| == |s.log| + 1
           && log == s.log + [Entry(s.now, log[|s.log|].window, Held(i))])
       || (res.Some? && !l.pc.Dequeuing? && res.value < |s.log| == |log| && !log[res.value].fate.Held?
           && log == Settle(s.log, res.value, log[res.value].fate))
  }

  lemma BooksMove(cfg: Settings, s: Sys, i: LoopId, l: Loop, s': Sys)
    requires BooksOk(cfg, s) && Moves(s, i, l, s'.log) && s'.loops == s.loops[i := l]
    requires l.workers >= 0 && l.slots == l.workers + (if HoldsSlot(l.pc) then 1 else 0)
    requires i in cfg.capacity && l.slots <= cfg.capacity[i] && (l.pc.Dequeuing? && i in cfg.quotaed ==> l.pc.res.Some?)
    ensures BooksOk(cfg, s')
  {
    assert LoopOk(cfg, s, i);
    forall j | j in s'.loops ensures LoopOk(cfg, s', j) {
      assert LoopOk(cfg, s, j);
    }
    forall n | 0 <= n < |s'.log| ensures HeldOk(s', n) {
      if n < |s.log| {
        assert HeldOk(s, n);
      }
    }
  }

  lemma StepMoves(cfg: Settings, s: Sys, act: Action, s': Sys)
    requires cfg.period >= 1 && BooksOk(cfg, s) && Next(cfg, s, act, s') && !act.Tick?
    ensures act.i in s'.loops && s'.loops == s.loops[act.i := s'.loops[act.i]]
            && Moves(s, act.i, s'.loops[act.i], s'.log)
    ensures var l := s'.loops[act.i];
            l.workers >= 0 && l.slots == l.workers + (if HoldsSlot(l.pc) then 1 else 0)
            && act.i in cfg.capacity && l.slots <= cfg.capacity[act.i]
            && (l.pc.Dequeuing? && act.i in cfg.quotaed ==> l.pc.res.Some?)
  {
    hide Reserving, Releasing, WindowOf, HeldOk;
    assert LoopOk(cfg, s, act.i);
  }

  lemma LoopsKept(cfg: Settings, s: Sys, act: Action, s': Sys)
    requires cfg.period >= 1 && BooksOk(cfg, s) && Next(cfg, s, act, s')
    ensures BooksOk(cfg, s')
  {
    if act.Tick? {
      forall i | i in s'.loops ensures LoopOk(cfg, s', i) { assert LoopOk(cfg, s, i); }
      forall n | 0 <= n < |s'.log| ensures HeldOk(s', n) { assert HeldOk(s, n); }
    } else {
      hide LoopStep, BooksOk, Moves;
      StepMoves(cfg, s, act, s');
      BooksMove(cfg, s, act.i, s'.loops[act.i], s');
    }
  }

  lemma WindowsKept(cfg: Settings, s: Sys, act: Action, s': Sys)
    requires cfg.period >= 1 && Inv(cfg, s) && Next(cfg, s, act, s') && (act.Reserve? ==> InReach(cfg, s))
    ensures AllWindows(cfg, s')
  {
    hide Reserving, Releasing, WindowOf;
    match act {
      case Reserve(i) =>
        WindowsReserve(cfg, s, i);
        SameWindows(cfg, s, i, s');
      case DequeueFails(i, released, stop) =>
        assert LoopOk(cfg, s, i);
        if s.loops[i].pc.res.Some? {
          WindowsSettle(cfg, s, s.loops[i].pc.res.value, if released then Released else Leaked);
        }
        SameTable(cfg, s', if s.loops[i].pc.res.None? then s
                           else if released then s.(wins := s'.wins, log := s'.log) else s.(log := s'.log));
      case Start(i) =>
        assert LoopOk(cfg, s, i);
        if s.loops[i].pc.res.Some? {
          WindowsSettle(cfg, s, s.loops[i].pc.res.value, Used);
        }
        SameTable(cfg, s', s.(log := s'.log));
      case _ => SameTable(cfg, s', s);
    }
  }

  lemma SameTable(cfg: Settings, a: Sys, b: Sys)
    requires cfg.period >= 1 && a.wins == b.wins && a.log == b.log && a.top == b.top && AllWindows(cfg, b)
    ensures AllWindows(cfg, a)
  {
    forall w: int ensures WindowOk(cfg, a, w) {
      assert WindowOk(cfg, b, w);
    }
  }

  lemma SameWindows(cfg: Settings, s: Sys, i: LoopId, s': Sys)
    requires cfg.period >= 1 && Next(cfg, s, Reserve(i), s')
    requires AllWindows(cfg, Reserved(cfg, s, i))
    ensures AllWindows(cfg, s')
  {
    hide Reserving, WindowOf, AllWindows;
    SameTable(cfg, s', Reserved(cfg, s, i));
  }

  lemma NextInv(cfg: Settings, s: Sys, act: Action, s': Sys)
    requires cfg.period >= 1 && Inv(cfg, s) && Next(cfg, s, act, s') && (act.Reserve? ==> InReach(cfg, s))
    ensures Inv(cfg, s')
  {
    hide Next, AllWindows, BooksOk, InReach;
    LoopsKept(cfg, s, act, s');
    WindowsKept(cfg, s, act, s');
  }

  // ---------------------------------------------------------------------------------------------
  // Whole runs, with any clock
  // ---------------------------------------------------------------------------------------------

  /** Nothing reserved, nothing running, every loop about to start. */
  ghost predicate Init(cfg: Settings, s: Sys) {
    s.wins == map[] && s.log == [] && s.top.None?
    && forall i :: i in s.loops ==> s.loops[i] == Loop(Idle, 0, 0) && i in cfg.capacity && cfg.capacity[i] >= 0
  }

  ghost predicate IsRun(cfg: Settings, run: seq<Sys>, acts: seq<Action>)
    requires cfg.period >= 1
  {
    |run| == |acts| + 1 && Init(cfg, run[0]) && forall n :: 0 <= n < |acts| ==> Next(cfg, run[n], acts[n], run[n + 1])
  }

  /** Every reservation of the run is tried within reach. */
  ghost predicate Reaching(cfg: Settings, run: seq<Sys>, acts: seq<Action>)
    requires cfg.period >= 1 && |run| == |acts| + 1
  {
    forall n :: 0 <= n < |acts| && acts[n].Reserve? ==> InReach(cfg, run[n])
  }

  lemma {:induction false} RunBooks(cfg: Settings, run: seq<Sys>, acts: seq<Action>, n: nat)
    requires cfg.period >= 1 && IsRun(cfg, run, acts) && n < |run|
    ensures BooksOk(cfg, run[n])
  {
    if n > 0 {
      hide Next, BooksOk;
      RunBooks(cfg, run, acts, n - 1);
      assert Next(cfg, run[n - 1], acts[n - 1], run[n]);
      LoopsKept(cfg, run[n - 1], acts[n - 1], run[n]);
    }
  }

  lemma {:induction false} RunInv(cfg: Settings, run: seq<Sys>, acts: seq<Action>, n: nat)
    requires cfg.period >= 1 && cfg.limit >= 0 && IsRun(cfg, run, acts) && Reaching(cfg, run, acts) && n < |run|
    ensures Inv(cfg, run[n])
  {
    hide Next, Inv, InReach;
    if n == 0 {
      InitInv(cfg, run[0]);
    } else {
      RunInv(cfg, run, acts, n - 1);
      assert Next(cfg, run[n - 1], acts[n - 1], run[n]);
      NextInv(cfg, run[n - 1], acts[n - 1], run[n]);
    }
  }

  lemma InitInv(cfg: Settings, s: Sys)
    requires cfg.period >= 1 && cfg.limit >= 0 && Init(cfg, s)
    ensures Inv(cfg, s)
  {}

  /** The hard quota: at every moment the handler starts charged to any one window are at most the limit, in every run
      whose reservations are tried no more than two periods before the latest window tried. */
  lemma HardQuota(cfg: Settings, run: seq<Sys>, acts: seq<Action>, n: nat, w: int)
    requires cfg.period >= 1 && cfg.limit >= 0 && IsRun(cfg, run, acts) && Reaching(cfg, run, acts) && n < |run|
    ensures Starts(run[n].log, w) <= Charged(run[n].log, w) <= cfg.limit
  {
    RunInv(cfg, run, acts, n);
    assert WindowOk(cfg, run[n], w);
    StartsCharged(run[n].log, w);
  }

  // ---- the quota by the clock ----

  /** Handler starts whose reservation was made at a reading from lo on and before hi. */
  ghost function StartsWithin(log: seq<Entry>, lo: int, hi: int): nat {
    if log == [] then 0
    else StartsWithin(log[..|log| - 1], lo, hi)
         + if lo <= log[|log| - 1].at < hi && log[|log| - 1].fate.Used? then 1 else 0
  }

  ghost predicate ReadingsOk(cfg: Settings, log: seq<Entry>)
    requires cfg.period >= 1
  {
    forall n :: 0 <= n < |log| ==> log[n].window == WindowOf(log[n].at, cfg.period)
  }

  /** The log grows by a granted reservation only, at the clock reading of that moment. */
  lemma LogStep(cfg: Settings, s: Sys, act: Action, s': Sys)
    requires cfg.period >= 1 && BooksOk(cfg, s) && Next(cfg, s, act, s')
    ensures |s.log| <= |s'.log| <= |s.log| + 1
    ensures |s'.log| > |s.log| ==>
              act.Reserve? && s'.log[|s.log|].at == s.now && s'.log[|s.log|].window == WindowOf(s.now, cfg.period)
  {
    hide Reserving, Releasing, WindowOf;
    if !act.Tick? {
      assert LoopOk(cfg, s, act.i);
    }
  }

  lemma {:induction false} RunReadings(cfg: Settings, run: seq<Sys>, acts: seq<Action>, n: nat)
    requires cfg.period >= 1 && IsRun(cfg, run, acts) && n < |run|
    ensures ReadingsOk(cfg, run[n].log)
  {
    hide Next, BooksOk, WindowOf;
    if n > 0 {
      RunReadings(cfg, run, acts, n - 1);
      RunBooks(cfg, run, acts, n - 1);
      assert Next(cfg, run[n - 1], acts[n - 1], run[n]);
      LogStep(cfg, run[n - 1], acts[n - 1], run[n]);
      forall k: nat | k < |run[n].log| ensures run[n].log[k].window == WindowOf(run[n].log[k].at, cfg.period) {
        if k < |run[n - 1].log| {
          FateStep(cfg, run[n - 1], acts[n - 1], run[n], k);
        }
      }
    }
  }

  lemma {:induction false} WithinWindow(cfg: Settings, log: seq<Entry>, k: nat)
    requires cfg.period >= 1 && ReadingsOk(cfg, log)
    ensures StartsWithin(log, k * cfg.period, (k + 1) * cfg.period) <= Starts(log, k * cfg.period)
  {
    hide WindowOf;
    if log != [] {
      var e := log[|log| - 1];
      WithinWindow(cfg, log[..|log| - 1], k);
      if k * cfg.period <= e.at < (k + 1) * cfg.period {
        WindowStart(e.at, cfg.period, k);
      }
    }
  }

  /** The hard quota by the clock: within any one period, counted from second 0, at most the limit of starts have their
      reservation. */
  lemma HardQuotaPerPeriod(cfg: Settings, run: seq<Sys>, acts: seq<Action>, n: nat, k: nat)
    requires cfg.period >= 1 && cfg.limit >= 0 && IsRun(cfg, run, acts) && Reaching(cfg, run, acts) && n < |run|
    ensures StartsWithin(run[n].log, k * cfg.period, (k + 1) * cfg.period) <= cfg.limit
  {
    hide Reaching, IsRun;
    HardQuota(cfg, run, acts, n, k * cfg.period);
    RunReadings(cfg, run, acts, n);
    WithinWindow(cfg, run[n].log, k);
  }

  /** A clock that never goes back is within reach. */
  lemma ForwardReaches(cfg: Settings, run: seq<Sys>, acts: seq<Action>)
    requires cfg.period >= 1 && IsRun(cfg, run, acts)
    requires forall n :: 0 <= n < |acts| && acts[n].Tick? ==> acts[n].now >= run[n].now
    ensures Reaching(cfg, run, acts)
  {
    hide Next;
    forall n | 0 <= n < |acts| && acts[n].Reserve? ensures InReach(cfg, run[n]) {
      TopBehind(cfg, run, acts, n);
    }
  }

  lemma {:induction false} TopBehind(cfg: Settings, run: seq<Sys>, acts: seq<Action>, n: nat)
    requires cfg.period >= 1 && IsRun(cfg, run, acts) && n < |run|
    requires forall k :: 0 <= k < |acts| && acts[k].Tick? ==> acts[k].now >= run[k].now
    ensures run[n].top.Some? ==> run[n].top.value <= Win(cfg, run[n])
  {
    if n > 0 {
      TopBehind(cfg, run, acts, n - 1);
      assert Next(cfg, run[n - 1], acts[n - 1], run[n]);
      TopStep(cfg, run[n - 1], acts[n - 1], run[n]);
      if acts[n - 1].Tick? {
        WindowMonotone(run[n - 1].now, run[n].now, cfg.period);
      }
    }
  }

  /** Only a reservation moves the latest window, only a tick the clock. */
  lemma TopStep(cfg: Settings, s: Sys, act: Action, s': Sys)
    requires cfg.period >= 1 && Next(cfg, s, act, s')
    ensures s'.top == if act.Reserve? then Later(s.top, Win(cfg, s)) else s.top
    ensures s'.now == if act.Tick? then act.now else s.now
  {
    hide Reserving, Releasing, WindowOf;
  }

  // ---- exactly when the quota holds ----

  ghost predicate WithinLimit(cfg: Settings, s: Sys) {
    forall w: int :: Charged(s.log, w) <= cfg.limit
  }

  /** From a state with an exact table, one reservation keeps the limit if and only if its window is still in the table
      or is not spent; otherwise it is granted over the limit. */
  lemma ReserveExact(cfg: Settings, s: Sys, i: LoopId, s': Sys)
    requires cfg.period >= 1 && cfg.limit >= 1 && Inv(cfg, s) && Next(cfg, s, Reserve(i), s')
    ensures WithinLimit(cfg, s') <==> Win(cfg, s) in s.wins || Charged(s.log, Win(cfg, s)) < cfg.limit
    ensures !WithinLimit(cfg, s') ==> s'.loops[i].pc.Dequeuing? && Charged(s'.log, Win(cfg, s)) == cfg.limit + 1
  {
    hide WindowOf;
    var win := Win(cfg, s);
    assert WindowOk(cfg, s, win);
    NeverStale(s.wins, win, cfg.period);
    forall w: int
      ensures Charged(s.log, w) <= cfg.limit
      ensures Charged(s'.log, w) <= Charged(s.log, w) + if w == win then 1 else 0 {
      assert WindowOk(cfg, s, w);
      ChargedAppend(s.log, Entry(s.now, win, Held(i)), w);
    }
    ChargedAppend(s.log, Entry(s.now, win, Held(i)), win);
    assert WithinLimit(cfg, s') ==> Charged(s'.log, win) <= cfg.limit;
  }

  /** The table refuses the current window, or the window has room. */
  ghost predicate Safe(cfg: Settings, s: Sys)
    requires cfg.period >= 1
  {
    CountAt(s.wins, Win(cfg, s)) >= cfg.limit || Charged(s.log, Win(cfg, s)) < cfg.limit
  }

  /** What a step charges: a granted reservation one to the current window, anything else nothing. */
  lemma StepCharges(cfg: Settings, s: Sys, act: Action, s': Sys, w: int)
    requires cfg.period >= 1 && BooksOk(cfg, s) && Next(cfg, s, act, s')
    ensures var granted := act.Reserve? && CountAt(s.wins, Win(cfg, s)) < cfg.limit;
            if granted then Charged(s'.log, w) == Charged(s.log, w) + (if w == Win(cfg, s) then 1 else 0)
            else Charged(s'.log, w) <= Charged(s.log, w)
  {
    hide WindowOf;
    if act.Reserve? {
      NeverStale(s.wins, Win(cfg, s), cfg.period);
      ChargedAppend(s.log, Entry(s.now, Win(cfg, s), Held(act.i)), w);
    } else if !act.Tick? {
      assert LoopOk(cfg, s, act.i);
      var pc := s.loops[act.i].pc;
      if pc.Dequeuing? && pc.res.Some? && s'.log != s.log {
        ChargedSettle(s.log, pc.res.value, s'.log[pc.res.value].fate, w);
      }
    }
  }

  /** With any clock whatever: a run keeps to the limit throughout if and only if no reservation is granted in a window
      that has spent its limit, that is, whenever the table does not refuse, the window has room. */
  lemma QuotaExactly(cfg: Settings, run: seq<Sys>, acts: seq<Action>)
    requires cfg.period >= 1 && cfg.limit >= 0 && IsRun(cfg, run, acts)
    ensures (forall n :: 0 <= n < |run| ==> WithinLimit(cfg, run[n]))
            <==> (forall n :: 0 <= n < |acts| && acts[n].Reserve? ==> Safe(cfg, run[n]))
  {
    hide Next, BooksOk, Safe, WithinLimit;
    if forall n :: 0 <= n < |acts| && acts[n].Reserve? ==> Safe(cfg, run[n]) {
      forall n | 0 <= n < |run| ensures WithinLimit(cfg, run[n]) {
        SafeWithin(cfg, run, acts, n);
      }
    }
    if forall n :: 0 <= n < |run| ==> WithinLimit(cfg, run[n]) {
      forall n | 0 <= n < |acts| && acts[n].Reserve? ensures Safe(cfg, run[n]) {
        assert Next(cfg, run[n], acts[n], run[n + 1]);
        assert WithinLimit(cfg, run[n + 1]);
        RunBooks(cfg, run, acts, n);
        StepCharges(cfg, run[n], acts[n], run[n + 1], Win(cfg, run[n]));
        WithinAt(cfg, run[n], run[n + 1]);
      }
    }
  }

  lemma WithinAt(cfg: Settings, s: Sys, s': Sys)
    requires cfg.period >= 1 && WithinLimit(cfg, s')
    requires CountAt(s.wins, Win(cfg, s)) < cfg.limit ==>
             Charged(s'.log, Win(cfg, s)) == Charged(s.log, Win(cfg, s)) + 1
    ensures Safe(cfg, s)
  {
    assert Charged(s'.log, Win(cfg, s)) <= cfg.limit;
  }

  lemma {:induction false} SafeWithin(cfg: Settings, run: seq<Sys>, acts: seq<Action>, n: nat)
    requires cfg.period >= 1 && cfg.limit >= 0 && IsRun(cfg, run, acts) && n < |run|
    requires forall k :: 0 <= k < |acts| && acts[k].Reserve? ==> Safe(cfg, run[k])
    ensures WithinLimit(cfg, run[n])
  {
    if n > 0 {
      hide Next, BooksOk, WindowOf;
      SafeWithin(cfg, run, acts, n - 1);
      RunBooks(cfg, run, acts, n - 1);
      var s, s' := run[n - 1], run[n];
      assert Next(cfg, s, acts[n - 1], s');
      forall w: int ensures Charged(s'.log, w) <= cfg.limit {
        assert Charged(s.log, w) <= cfg.limit;
        StepCharges(cfg, s, acts[n - 1], s', w);
      }
    }
  }

  // ---- reservations and slots, with any clock ----

  /** Every start of a loop with a quota is paid by a reservation that loop holds, and by that one only. */
  lemma StartPaid(cfg: Settings, run: seq<Sys>, acts: seq<Action>, n: nat, i: LoopId)
    requires cfg.period >= 1 && IsRun(cfg, run, acts) && n < |acts| && acts[n] == Start(i) && i in cfg.quotaed
    ensures exists k: nat ::
              k < |run[n].log| && run[n].log[k].fate == Held(i) && run[n + 1].log == Settle(run[n].log, k, Used)
  {
    RunBooks(cfg, run, acts, n);
    assert Next(cfg, run[n], acts[n], run[n + 1]);
    assert LoopOk(cfg, run[n], i);
    var k := run[n].loops[i].pc.res.value;
    assert run[n].log[k].fate == Held(i);
  }

  /** A reservation keeps its window and its reading, and once it is used, given back or lost it stays so: one start at
      most, one release at most. */
  lemma {:induction false} FateSealed(cfg: Settings, run: seq<Sys>, acts: seq<Action>, i: nat, j: nat, n: nat)
    requires cfg.period >= 1 && IsRun(cfg, run, acts) && i <= j < |run| && n < |run[i].log|
    ensures n < |run[j].log| && run[j].log[n].window == run[i].log[n].window && run[j].log[n].at == run[i].log[n].at
    ensures run[j].log[n] == run[i].log[n] || (run[i].log[n].fate.Held? && !run[j].log[n].fate.Held?)
  {
    hide BooksOk;
    if i < j {
      FateSealed(cfg, run, acts, i, j - 1, n);
      RunBooks(cfg, run, acts, j - 1);
      assert Next(cfg, run[j - 1], acts[j - 1], run[j]);
      FateStep(cfg, run[j - 1], acts[j - 1], run[j], n);
    }
  }

  lemma FateStep(cfg: Settings, s: Sys, act: Action, s': Sys, n: nat)
    requires cfg.period >= 1 && BooksOk(cfg, s) && Next(cfg, s, act, s') && n < |s.log|
    ensures n < |s'.log| && s'.log[n].window == s.log[n].window && s'.log[n].at == s.log[n].at
    ensures s'.log[n] == s.log[n] || (s.log[n].fate.Held? && !s'.log[n].fate.Held?)
  {
    hide Reserving, Releasing, WindowOf;
    if !act.Tick? {
      assert LoopOk(cfg, s, act.i);
    }
  }

  /** Slots are conserved: what a loop's limiter has handed out is its running handlers plus at most one held by the
      loop itself, within capacity; after the loop has exited only its handlers hold slots. */
  lemma SlotsConserved(cfg: Settings, run: seq<Sys>, acts: seq<Action>, n: nat, i: LoopId)
    requires cfg.period >= 1 && IsRun(cfg, run, acts) && n < |run| && i in run[n].loops
    ensures var l := run[n].loops[i];
            l.workers <= l.slots <= l.workers + 1 && 0 <= l.slots && i in cfg.capacity && l.slots <= cfg.capacity[i]
            && (l.slots == l.workers + 1 <==> HoldsSlot(l.pc))
            && (l.pc.Exited? ==> l.slots == l.workers) && (l.pc.Exited? && l.workers == 0 ==> l.slots == 0)
  {
    hide Next;
    RunBooks(cfg, run, acts, n);
    assert LoopOk(cfg, run[n], i);
  }

  /** A dequeue that came to nothing gives its reservation back: one charge less to that window, in the log and, where
      the window is still in the table, there too. A failed release charges it for good. */
  lemma GivenBack(cfg: Settings, run: seq<Sys>, acts: seq<Action>, n: nat)
    requires cfg.period >= 1 && IsRun(cfg, run, acts) && n < |acts| && acts[n].DequeueFails?
    requires acts[n].i in run[n].loops && run[n].loops[acts[n].i].pc.Dequeuing?
    ensures match run[n].loops[acts[n].i].pc.res
            case None => run[n + 1].log == run[n].log && run[n + 1].wins == run[n].wins
            case Some(k) =>
              k < |run[n].log| && run[n + 1].log == Settle(run[n].log, k, if acts[n].released then Released else Leaked)
              && var w, cost := run[n].log[k].window, if acts[n].released then 1 else 0;
                 Charged(run[n + 1].log, w) == Charged(run[n].log, w) - cost
                 && run[n + 1].wins.Keys == run[n].wins.Keys
                 && forall x :: x in run[n].wins ==>
                      run[n + 1].wins[x] == run[n].wins[x] - if x == w && run[n].wins[x] > 0 then cost else 0
  {
    RunBooks(cfg, run, acts, n);
    assert Next(cfg, run[n], acts[n], run[n + 1]);
    assert LoopOk(cfg, run[n], acts[n].i);
    var res := run[n].loops[acts[n].i].pc.res;
    if res.Some? {
      ChargedSettle(run[n].log, res.value, run[n + 1].log[res.value].fate, run[n].log[res.value].window);
    }
  }

  /** An exited loop holds no reservation. */
  lemma NothingHeldAfterExit(cfg: Settings, run: seq<Sys>, acts: seq<Action>, n: nat, i: LoopId, k: nat)
    requires cfg.period >= 1 && IsRun(cfg, run, acts) && n < |run| && i in run[n].loops && k < |run[n].log|
    requires run[n].loops[i].pc.Exited?
    ensures run[n].log[k].fate != Held(i)
  {
    hide Next;
    RunBooks(cfg, run, acts, n);
    assert HeldOk(run[n], k);
  }
}
