/** Backlog and counters: read from the redundant structures they equal a full scan of the records. */
module Queries {
  import opened Model
  import opened Spec
  import opened Encodings
  import opened RedisIndex
  import MemoryBroker
  import RedisBroker

  type Matrix = map<string, map<string, int>>

  function Cell(m: Matrix, typ: string, st: string): int {
    if typ in m && st in m[typ] then m[typ][st] else 0
  }

  /** Only non-zero cells, no empty rows. */
  ghost predicate Sparse(m: Matrix) {
    forall typ :: typ in m ==> m[typ] != map[] && forall st :: st in m[typ] ==> m[typ][st] != 0
  }

  /** The matrix a full scan gives: each cell is the size of its group of tasks. */
  ghost predicate CountsAre(recs: Recs, m: Matrix) {
    Sparse(m)
    && (forall typ, s :: Cell(m, typ, StatusName(s)) == |Group(recs, typ, s)|)
    && (forall typ, st :: Cell(m, typ, st) != 0 ==> exists s :: st == StatusName(s))
  }

  lemma SparseDecided(a: Matrix, b: Matrix)
    requires Sparse(a) && Sparse(b) && forall typ, st :: Cell(a, typ, st) == Cell(b, typ, st)
    ensures a == b
  {
    forall typ ensures typ in a <==> typ in b {
      if typ in a { var st :| st in a[typ]; assert Cell(b, typ, st) != 0; }
      if typ in b { var st :| st in b[typ]; assert Cell(a, typ, st) != 0; }
    }
    forall typ | typ in a ensures a[typ] == b[typ] {
      forall st ensures st in a[typ] <==> st in b[typ] {
        assert Cell(a, typ, st) == Cell(b, typ, st);
      }
      forall st | st in a[typ] ensures a[typ][st] == b[typ][st] {
        assert Cell(a, typ, st) == Cell(b, typ, st);
      }
    }
  }

  /** The counts of a set of records are unique, so both brokers answer alike over the same records. */
  lemma CountsUnique(recs: Recs, a: Matrix, b: Matrix)
    requires CountsAre(recs, a) && CountsAre(recs, b)
    ensures a == b
  {
    hide Sparse, Group;
    forall typ, st ensures Cell(a, typ, st) == Cell(b, typ, st) {
      if Cell(a, typ, st) != 0 || Cell(b, typ, st) != 0 {
        var s :| st == StatusName(s);
      }
    }
    SparseDecided(a, b);
  }

  /** The pending and retrying tasks of a queue, due or not. */
  ghost function Backlog(recs: Recs, q: string): set<Id> {
    set x | x in recs && InQueue(recs, x, q)
  }

  // ---- the reference broker scans ----

  method ScanQueueLen(b: MemoryBroker.Broker, q: string) returns (n: nat)
    ensures n == |Backlog(b.recs, q)|
  {
    n := 0;
    var todo := b.recs.Keys;
    ghost var found: set<Id> := {};
    while todo != {}
      invariant todo <= b.recs.Keys && n == |found|
      invariant forall x :: x in found <==> InQueue(b.recs, x, q) && x !in todo
      decreases todo
    {
      var id :| id in todo;
      todo := todo - {id};
      if b.recs[id].task.queue == q && Queued(b.recs[id]) {
        n := n + 1;
        found := found + {id};
      }
    }
    assert found == Backlog(b.recs, q);
  }

  method ScanCounts(b: MemoryBroker.Broker) returns (out: Matrix)
    ensures CountsAre(b.recs, out)
  {
    hide Group, Sparse;
    out := map[];
    var todo := b.recs.Keys;
    ghost var seen: Recs := map[];
    NothingCounted();
    while todo != {}
      invariant todo <= b.recs.Keys && seen.Keys == b.recs.Keys - todo
      invariant (forall x :: x in seen ==> seen[x] == b.recs[x]) && CountsAre(seen, out)
      decreases todo
    {
      var id :| id in todo;
      todo := todo - {id};
      var r := b.recs[id];
      var typ, st := r.task.typ, StatusName(r.task.status);
      OneMore(seen, id, r, out);
      var row := if typ in out then out[typ] else map[];
      out := out[typ := row[st := (if st in row then row[st] else 0) + 1]];
      seen := seen[id := r];
    }
    assert seen == b.recs;
  }

  lemma NothingCounted()
    ensures CountsAre(map[], map[])
  {
    forall typ, s ensures Group(map[], typ, s) == {} {}
  }

  function CountedIn(m: Matrix, typ: string, st: string): Matrix {
    var row := if typ in m then m[typ] else map[];
    m[typ := row[st := (if st in row then row[st] else 0) + 1]]
  }

  lemma OneMore(recs: Recs, id: Id, r: Rec, m: Matrix)
    requires CountsAre(recs, m) && id !in recs
    ensures CountsAre(recs[id := r], CountedIn(m, r.task.typ, StatusName(r.task.status)))
  {
    hide Group;
    var m', typ0, s0 := CountedIn(m, r.task.typ, StatusName(r.task.status)), r.task.typ, r.task.status;
    forall typ, st
      ensures Cell(m', typ, st) == Cell(m, typ, st) + if typ == typ0 && st == StatusName(s0) then 1 else 0 {}
    assert Cell(m, typ0, StatusName(s0)) == |Group(recs, typ0, s0)|;
    forall typ, s ensures Cell(m', typ, StatusName(s)) == |Group(recs[id := r], typ, s)| {
      GroupNew(recs, id, r, typ, s);
      assert Cell(m, typ, StatusName(s)) == |Group(recs, typ, s)|;
      if StatusName(s) == StatusName(s0) { NamesDiffer(s, s0); }
    }
    forall typ, st | Cell(m', typ, st) != 0 ensures exists s :: st == StatusName(s) {
      assert Cell(m, typ, st) != 0 || st == StatusName(s0);
    }
    forall typ | typ in m' ensures m'[typ] != map[] && forall st :: st in m'[typ] ==> m'[typ][st] != 0 {
      assert typ == typ0 ==> StatusName(s0) in m'[typ];
      forall st | st in m'[typ] ensures m'[typ][st] != 0 {
        assert m'[typ][st] == Cell(m', typ, st);
        assert st in (if typ in m then m[typ] else map[]) ==> m[typ][st] != 0;
        assert Cell(m, typ0, StatusName(s0)) >= 0;
      }
    }
  }

  // ---- the Redis broker reads its structures ----

  /** The list's length plus the zset's size: every queued task of the queue counted once. */
  method QueueLen(store: RedisBroker.Store, q: string) returns (n: nat)
    requires store.Indexed()
    ensures n == |Backlog(store.recs, q)|
  {
    var list, zset := ListOf(store.pending, q), ZsetOf(store.delayed, q);
    n := |list| + |zset|;
    QueueCard(store.recs, store.pending, store.delayed, q);
  }

  lemma QueueCard(recs: Recs, pending: map<string, seq<Id>>, delayed: map<string, map<Id, int>>, q: string)
    requires QueueInv(recs, pending, delayed)
    ensures |ListOf(pending, q)| + |ZsetOf(delayed, q)| == |Backlog(recs, q)|
  {
    var list, zset := ListOf(pending, q), ZsetOf(delayed, q);
    assert QueueOk(recs, list, zset, q);
    NoDupCard(list);
    forall x ensures x in Elems(list) + zset.Keys <==> InQueue(recs, x, q) {
      if InQueue(recs, x, q) { assert Placed(recs, pending, delayed, x); }
    }
    assert Elems(list) + zset.Keys == Backlog(recs, q);
    assert Elems(list) !! zset.Keys;
    assert |zset| == |zset.Keys|;
  }

  function FieldText(typ: string, st: string): string {
    typ + ":" + st
  }

  /** A matrix read off the counters: each cell is the counter whose field is its type, a colon and its status. */
  ghost predicate MatrixOf(stats: map<string, int>, left: set<string>, m: Matrix) {
    Sparse(m)
    && forall typ, st ::
         Cell(m, typ, st) == if ':' in st || FieldText(typ, st) in left then 0 else Stat(stats, FieldText(typ, st))
  }

  /** A field splits at its last colon in one way only. */
  lemma SplitUnique(typ: string, st: string)
    requires ':' !in st
    ensures var f := FieldText(typ, st); var n := AfterLast(f, ':'); n > 0 && f[..n - 1] == typ && f[n..] == st
  {
    AfterLastAt(typ, ':', st);
  }

  /** The counters as a matrix; fails exactly when a field has no colon. */
  method ReadStats(stats: map<string, int>) returns (out: Option<Matrix>)
    ensures out.None? <==> exists f :: f in stats && ':' !in f
    ensures out.Some? ==> MatrixOf(stats, {}, out.value)
  {
    hide Sparse, FieldText;
    var m: Matrix := map[];
    var todo := stats.Keys;
    NothingRead(stats);
    while todo != {}
      invariant todo <= stats.Keys && MatrixOf(stats, todo, m)
      invariant forall f :: f in stats && f !in todo ==> ':' in f
      decreases todo
    {
      var f :| f in todo;
      var i := AfterLast(f, ':');
      if i == 0 {
        assert f[0..] == f;
        return None;
      }
      var typ, st := f[..i - 1], f[i..];
      Reassembled(f, i);
      CellRead(stats, todo, m, typ, st);
      todo := todo - {f};
      if stats[f] != 0 {
        var row := if typ in m then m[typ] else map[];
        m := m[typ := row[st := stats[f]]];
      }
    }
    out := Some(m);
  }

  lemma NothingRead(stats: map<string, int>)
    ensures MatrixOf(stats, stats.Keys, map[])
  {}

  lemma Reassembled(f: string, i: nat)
    requires i == AfterLast(f, ':') && i > 0
    ensures FieldText(f[..i - 1], f[i..]) == f && ':' !in f[i..] && ':' in f
  {
    assert f[i - 1] == ':';
  }

  function WithCell(m: Matrix, typ: string, st: string, n: int): Matrix {
    var row := if typ in m then m[typ] else map[];
    if n == 0 then m else m[typ := row[st := n]]
  }

  lemma CellRead(stats: map<string, int>, todo: set<string>, m: Matrix, typ: string, st: string)
    requires MatrixOf(stats, todo, m) && ':' !in st && FieldText(typ, st) in todo && FieldText(typ, st) in stats
    ensures MatrixOf(stats, todo - {FieldText(typ, st)}, WithCell(m, typ, st, stats[FieldText(typ, st)]))
  {
    hide FieldText, Sparse;
    var f := FieldText(typ, st);
    var m' := WithCell(m, typ, st, stats[f]);
    assert Cell(m, typ, st) == 0;
    forall t, s
      ensures Cell(m', t, s) == if ':' in s || FieldText(t, s) in todo - {f} then 0 else Stat(stats, FieldText(t, s))
    {
      assert Cell(m, t, s) == if ':' in s || FieldText(t, s) in todo then 0 else Stat(stats, FieldText(t, s));
      if ':' !in s && FieldText(t, s) == f {
        SplitUnique(t, s);
        SplitUnique(typ, st);
      }
      assert t == typ && s == st ==> Cell(m', t, s) == stats[f];
      assert t != typ || s != st ==> Cell(m', t, s) == Cell(m, t, s);
    }
    SparseWith(m, typ, st, stats[f]);
  }

  lemma SparseWith(m: Matrix, typ: string, st: string, n: int)
    requires Sparse(m)
    ensures Sparse(WithCell(m, typ, st, n))
  {
    var m' := WithCell(m, typ, st, n);
    forall t | t in m' ensures m'[t] != map[] && forall s :: s in m'[t] ==> m'[t][s] != 0 {
      if t == typ && n != 0 { assert st in m'[t]; }
    }
  }

  /** Counts never fails on a consistent store and is the matrix a full scan gives. */
  method Counts(store: RedisBroker.Store) returns (out: Option<Matrix>)
    requires store.Indexed()
    ensures out.Some? && CountsAre(store.recs, out.value)
  {
    hide Sparse, Group;
    out := ReadStats(store.stats);
    StatsColons(store.recs, store.stats);
    StatsMatrix(store.recs, store.stats, if out.Some? then out.value else map[]);
  }

  lemma StatsColons(recs: Recs, stats: map<string, int>)
    requires StatsInv(recs, stats)
    ensures !exists f :: f in stats && ':' !in f
  {
    forall f | f in stats ensures ':' in f {
      var typ, s :| f == Field(typ, s);
      assert f[|typ|] == ':';
    }
  }

  lemma StatsMatrix(recs: Recs, stats: map<string, int>, m: Matrix)
    requires StatsInv(recs, stats)
    ensures MatrixOf(stats, {}, m) ==> CountsAre(recs, m)
  {
    hide Group, Sparse;
    if MatrixOf(stats, {}, m) {
      forall typ, s ensures Cell(m, typ, StatusName(s)) == |Group(recs, typ, s)| {
        NoColon(s);
        assert FieldText(typ, StatusName(s)) == Field(typ, s);
      }
      forall typ, st | Cell(m, typ, st) != 0 ensures exists s :: st == StatusName(s) {
        assert FieldText(typ, st) in stats;
        var t, s :| FieldText(typ, st) == Field(t, s);
        NoColon(s);
        SplitUnique(typ, st);
        FieldRoundTrip(t, s);
        assert st == StatusName(s);
      }
    }
  }
}
