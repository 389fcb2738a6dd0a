/** The periodic quota of the reference broker: one table of window counts per quota key. */
module Quota {
  /** Integer division that truncates toward zero, as in Go. */
  function TruncDiv(a: int, b: int): int
    requires b >= 1
  {
    if a >= 0 then a / b else -((-a) / b)
  }

  /** The start of the window a second falls into. */
  function WindowOf(now: int, period: int): int
    requires period >= 1
  {
    TruncDiv(now, period) * period
  }

  lemma DivMonotone(a: int, b: int, p: int)
    requires 0 <= a <= b && p >= 1
    ensures 0 <= a / p <= b / p
  {
    MulLess(b / p, a / p, p);
  }

  lemma MulLess(x: int, y: int, p: int)
    requires p >= 1
    ensures x < y ==> x * p + p <= y * p
  {
    if x < y {
      MulMonotone(x + 1, y, p);
    }
  }

  lemma MulMonotone(a: int, b: int, p: int)
    requires a <= b && p >= 1
    ensures a * p <= b * p
  {
    assert (b - a) * p >= 0;
  }

  /** Windows never go back when the clock does not. */
  lemma WindowMonotone(a: int, b: int, p: int)
    requires a <= b && p >= 1
    ensures WindowOf(a, p) <= WindowOf(b, p)
  {
    if a >= 0 {
      DivMonotone(a, b, p);
    } else if b < 0 {
      DivMonotone(-b, -a, p);
    } else {
      DivMonotone(0, -a, p);
      DivMonotone(0, b, p);
    }
    MulMonotone(TruncDiv(a, p), TruncDiv(b, p), p);
  }

  /** A second lies in the period that starts at its window exactly from second 0 on or on a window's edge; any other
      second before 0 is counted from the end of its period instead. */
  lemma WindowSpan(now: int, p: int)
    requires p >= 1
    ensures WindowOf(now, p) <= now < WindowOf(now, p) + p <==> now >= 0 || now % p == 0
    ensures now < 0 ==> WindowOf(now, p) - p < now <= WindowOf(now, p)
  {
    if now < 0 {
      var q, m := (-now) / p, (-now) % p;
      assert -now == q * p + m;
      if m == 0 {
        assert now == (-q) * p;
        DivisibleBy(-q, p);
      } else {
        assert now == (-q - 1) * p + (p - m);
        RemainderOf(-q - 1, p - m, p);
      }
    }
  }

  lemma DivisibleBy(q: int, p: int)
    requires p >= 1
    ensures (q * p) % p == 0
  {
    RemainderOf(q, 0, p);
  }

  lemma RemainderOf(q: int, m: int, p: int)
    requires p >= 1 && 0 <= m < p
    ensures (q * p + m) % p == m
  {
    var n := q * p + m;
    var q', m' := n / p, n % p;
    assert q * p + m == q' * p + m';
    MulLess(q, q', p);
    MulLess(q', q, p);
  }

  /** Windows start at multiples of the period. */
  lemma WindowPeriodic(now: int, p: int)
    requires p >= 1
    ensures WindowOf(now, p) % p == 0
  {
    DivisibleBy(TruncDiv(now, p), p);
  }

  lemma QuotientOf(now: int, p: int, k: int)
    requires p >= 1 && k * p <= now < (k + 1) * p
    ensures now / p == k
  {
    var q := now / p;
    assert q * p <= now < q * p + p;
    MulLess(q, k, p);
    MulLess(k, q, p);
  }

  /** From second 0 on the readings of one period, and no others, share its window. */
  lemma WindowStart(now: int, p: int, k: nat)
    requires p >= 1 && now >= 0
    ensures WindowOf(now, p) == k * p <==> k * p <= now < (k + 1) * p
  {
    if k * p <= now < (k + 1) * p {
      QuotientOf(now, p, k);
    } else if WindowOf(now, p) == k * p {
      WindowSpan(now, p);
    }
  }

  type Windows = map<int, int>

  function CountAt(wins: Windows, w: int): int {
    if w in wins then wins[w] else 0
  }

  predicate Stale(w: int, win: int, period: int) {
    w < win - 2 * period
  }

  function StaleIn(wins: Windows, win: int, period: int): set<int> {
    set w | w in wins && Stale(w, win, period)
  }

  /** Windows more than two periods old are dropped. */
  function Purged(wins: Windows, win: int, period: int): Windows {
    wins - StaleIn(wins, win, period)
  }

  lemma SomeWindow(s: set<int>)
    ensures s != {} ==> exists w :: w in s
  {
    assert (forall w :: w !in s) ==> s == {};
  }

  method Purge(wins: Windows, win: int, period: int) returns (out: Windows)
    ensures out == Purged(wins, win, period)
  {
    out := wins;
    var todo := wins.Keys;
    ghost var gone: set<int> := {};
    while todo != {}
      invariant todo <= wins.Keys && out == wins - gone
      invariant forall w :: w in gone <==> w in wins && w !in todo && Stale(w, win, period)
      decreases todo
    {
      SomeWindow(todo);
      var w :| w in todo;
      todo := todo - {w};
      if Stale(w, win, period) {
        out := out - {w};
        gone := gone + {w};
      }
    }
    forall w ensures w in gone <==> w in StaleIn(wins, win, period) {}
    assert gone == StaleIn(wins, win, period);
  }

  /** A reservation at `win`: refused when the window is spent, counted otherwise. */
  function Reserving(wins: Windows, win: int, limit: int, period: int): (r: (Windows, bool)) {
    var p := Purged(wins, win, period);
    if CountAt(p, win) >= limit then (p, false) else (p[win := CountAt(p, win) + 1], true)
  }

  function Releasing(wins: Windows, w: int): Windows {
    if CountAt(wins, w) > 0 then wins[w := wins[w] - 1] else wins
  }

  /** What a clock that jumps ahead and comes back can do: after a reservation at window `later`, window w is granted
      exactly when it was not spent, or when it lies more than two periods before `later` and was dropped. */
  lemma ClockBackForgets(wins: Windows, w: int, later: int, limit: int, period: int)
    requires limit >= 1 && period >= 1 && later != w
    ensures var after := Reserving(wins, later, limit, period).0;
            Reserving(after, w, limit, period).1 <==> CountAt(wins, w) < limit || Stale(w, later, period)
  {
    var p := Purged(wins, later, period);
    assert w in StaleIn(wins, later, period) <==> w in wins && Stale(w, later, period);
    assert CountAt(p, w) == if Stale(w, later, period) then 0 else CountAt(wins, w);
    var after := Reserving(wins, later, limit, period).0;
    assert CountAt(after, w) == CountAt(p, w);
    NeverStale(after, w, period);
  }

  /** The current window is never dropped. */
  lemma NeverStale(wins: Windows, w: int, period: int)
    ensures period >= 0 ==> CountAt(Purged(wins, w, period), w) == CountAt(wins, w)
  {
    assert w in StaleIn(wins, w, period) <==> w in wins && Stale(w, w, period);
  }

  datatype Reservation = Spent | Granted(window: int) | Unavailable

  /** The gate of one quota key over the broker's shared table. */
  class Gate {
    var quota: map<string, Windows>
    const key: string
    const limit: int
    const period: int

    constructor (key: string, limit: int, period: int)
      requires limit > 0 && period >= 1
      ensures this.key == key && this.limit == limit && this.period == period && quota == map[]
    {
      this.key, this.limit, this.period := key, limit, period;
      quota := map[];
    }

    function Table(): Windows
      reads this
    {
      if key in quota then quota[key] else map[]
    }

    /** live: the broker is initialised and not closed. now is the clock in seconds. */
    method Reserve(now: int, live: bool) returns (res: Reservation)
      requires period >= 1
      modifies this`quota
      ensures !live ==> res.Unavailable? && quota == old(quota)
      ensures live ==> var (wins, granted) := Reserving(old(Table()), WindowOf(now, period), limit, period);
                       Table() == wins && res == if granted then Granted(WindowOf(now, period)) else Spent
      // granted exactly while the table counts fewer than the limit in the period of this reading, and counted there
      ensures res.Granted? ==> res.window % period == 0 && (now >= 0 ==> res.window <= now < res.window + period)
      ensures live ==> var win := WindowOf(now, period);
                       var was := if win in old(Table()) then old(Table())[win] else 0;
                       (res.Granted? <==> was < limit)
                       && (res.Granted? ==> win in Table() && Table()[win] == was + 1)
                       && (forall w :: w != win ==> (w in Table() <==> w in old(Table()) && w >= win - 2 * period)
                                                    && (w in Table() ==> Table()[w] == old(Table())[w]))
      ensures forall k :: k != key ==> (k in quota <==> k in old(quota)) && (k in quota ==> quota[k] == old(quota[k]))
    {
      if !live { return Unavailable; }
      var win := WindowOf(now, period);
      WindowPeriodic(now, period);
      WindowSpan(now, period);
      NeverStale(Table(), win, period);
      var wins := Table();
      wins := Purge(wins, win, period);
      quota := quota[key := wins];
      if CountAt(wins, win) >= limit {
        return Spent;
      }
      quota := quota[key := wins[win := CountAt(wins, win) + 1]];
      res := Granted(win);
    }

    /** Gives back one reservation of window w; a window already dropped is left alone. */
    method Release(w: int)
      modifies this`quota
      ensures Table() == Releasing(old(Table()), w)
      ensures Table().Keys == old(Table()).Keys
      ensures forall x :: x in Table() ==>
                Table()[x] == old(Table())[x] - if x == w && old(Table())[x] > 0 then 1 else 0
      ensures forall k :: k != key ==> (k in quota <==> k in old(quota)) && (k in quota ==> quota[k] == old(quota[k]))
    {
      if key in quota && CountAt(quota[key], w) > 0 {
        quota := quota[key := quota[key][w := quota[key][w] - 1]];
      }
    }
  }
}
