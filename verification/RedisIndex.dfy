/** The redundant Redis structures beside the task hashes, and what it means for them to agree with the hashes. */
module RedisIndex {
  import opened Model
  import opened Deps
  import opened Spec
  import opened Wiring
  import opened Encodings

  // A missing Redis key reads as the empty structure, a missing counter as zero.
  function ListOf(pending: map<string, seq<Id>>, q: string): seq<Id> { if q in pending then pending[q] else [] }
  function ZsetOf(delayed: map<string, map<Id, int>>, q: string): map<Id, int> {
    if q in delayed then delayed[q] else map[]
  }
  function Bucket(byStatus: map<Status, set<Id>>, s: Status): set<Id> { if s in byStatus then byStatus[s] else {} }
  function Stat(stats: map<string, int>, f: string): int { if f in stats then stats[f] else 0 }
  function Kids(children: map<Id, set<Id>>, p: Id): set<Id> { if p in children then children[p] else {} }

  // ---------------------------------------------------------------------------------------------
  // Queues
  // ---------------------------------------------------------------------------------------------

  ghost predicate InQueue(recs: Recs, id: Id, q: string) {
    id in recs && Queued(recs[id]) && recs[id].task.queue == q
  }

  /** A queue's list and zset hold queued tasks of that queue, each once and in one of the two, scored by run_at. */
  ghost predicate QueueOk(recs: Recs, list: seq<Id>, zset: map<Id, int>, q: string) {
    NoDup(list)
    && (forall id :: id in list ==> InQueue(recs, id, q) && id !in zset)
    && (forall id :: id in zset ==> InQueue(recs, id, q) && zset[id] == recs[id].task.runAt)
  }

  ghost predicate Placed(recs: Recs, pending: map<string, seq<Id>>, delayed: map<string, map<Id, int>>, id: Id)
    requires id in recs
  {
    id in ListOf(pending, recs[id].task.queue) || id in ZsetOf(delayed, recs[id].task.queue)
  }

  /** Everything but id is where it belongs, and id is nowhere. */
  ghost predicate QueuesBut(recs: Recs, pending: map<string, seq<Id>>, delayed: map<string, map<Id, int>>, id: Id) {
    (forall q :: QueueOk(recs, ListOf(pending, q), ZsetOf(delayed, q), q)
                 && id !in ListOf(pending, q) && id !in ZsetOf(delayed, q))
    && (forall x :: x in recs && x != id && Queued(recs[x]) ==> Placed(recs, pending, delayed, x))
  }

  ghost predicate QueueInv(recs: Recs, pending: map<string, seq<Id>>, delayed: map<string, map<Id, int>>) {
    (forall q :: QueueOk(recs, ListOf(pending, q), ZsetOf(delayed, q), q))
    && (forall x :: x in recs && Queued(recs[x]) ==> Placed(recs, pending, delayed, x))
  }

  /** All occurrences removed. */
  function Without(s: seq<Id>, x: Id): seq<Id> {
    if s == [] then [] else (if s[0] == x then [] else [s[0]]) + Without(s[1..], x)
  }

  lemma {:induction false} WithoutElems(s: seq<Id>, x: Id)
    ensures forall y :: y in Without(s, x) <==> y in s && y != x
    ensures NoDup(s) ==> NoDup(Without(s, x))
  {
    if s != [] {
      WithoutElems(s[1..], x);
      assert s == [s[0]] + s[1..];
      if NoDup(s) {
        assert NoDup(s[1..]) && s[0] !in s[1..];
        assert s[0] !in Without(s[1..], x);
      }
    }
  }

  function Unlisted(pending: map<string, seq<Id>>, id: Id, q: string): map<string, seq<Id>> {
    pending[q := Without(ListOf(pending, q), id)]
  }

  function Undelayed(delayed: map<string, map<Id, int>>, id: Id, q: string): map<string, map<Id, int>> {
    delayed[q := ZsetOf(delayed, q) - {id}]
  }

  function Pushed(pending: map<string, seq<Id>>, id: Id, q: string): map<string, seq<Id>> {
    pending[q := ListOf(pending, q) + [id]]
  }

  function Scored(delayed: map<string, map<Id, int>>, id: Id, q: string, score: int): map<string, map<Id, int>> {
    delayed[q := ZsetOf(delayed, q)[id := score]]
  }

  /** A task that is not queued is in no queue. */
  lemma NotQueuedDetached(recs: Recs, pending: map<string, seq<Id>>, delayed: map<string, map<Id, int>>, id: Id)
    requires QueueInv(recs, pending, delayed) && (id in recs ==> !Queued(recs[id]))
    ensures QueuesBut(recs, pending, delayed, id)
  {
    forall q ensures QueueOk(recs, ListOf(pending, q), ZsetOf(delayed, q), q)
                     && id !in ListOf(pending, q) && id !in ZsetOf(delayed, q)
    {
      assert QueueOk(recs, ListOf(pending, q), ZsetOf(delayed, q), q);
    }
  }

  lemma RemoveDetaches(recs: Recs, pending: map<string, seq<Id>>, delayed: map<string, map<Id, int>>, id: Id)
    requires QueueInv(recs, pending, delayed) && id in recs
    ensures var q := recs[id].task.queue; QueuesBut(recs, Unlisted(pending, id, q), Undelayed(delayed, id, q), id)
  {
    var q0 := recs[id].task.queue;
    var pending', delayed' := Unlisted(pending, id, q0), Undelayed(delayed, id, q0);
    WithoutElems(ListOf(pending, q0), id);
    forall q ensures QueueOk(recs, ListOf(pending', q), ZsetOf(delayed', q), q)
                     && id !in ListOf(pending', q) && id !in ZsetOf(delayed', q)
    {
      assert QueueOk(recs, ListOf(pending, q), ZsetOf(delayed, q), q);
    }
    forall x | x in recs && x != id && Queued(recs[x]) ensures Placed(recs, pending', delayed', x) {
      assert Placed(recs, pending, delayed, x);
    }
  }

  /** Popping the head of a list takes that task out of its queue. */
  lemma PopDetaches(recs: Recs, pending: map<string, seq<Id>>, delayed: map<string, map<Id, int>>, q0: string)
    requires QueueInv(recs, pending, delayed) && ListOf(pending, q0) != []
    ensures var id := ListOf(pending, q0)[0];
            InQueue(recs, id, q0) && QueuesBut(recs, pending[q0 := ListOf(pending, q0)[1..]], delayed, id)
  {
    var l := ListOf(pending, q0);
    var id := l[0];
    var pending' := pending[q0 := l[1..]];
    assert QueueOk(recs, l, ZsetOf(delayed, q0), q0) && id in l;
    forall q ensures QueueOk(recs, ListOf(pending', q), ZsetOf(delayed, q), q)
                     && id !in ListOf(pending', q) && id !in ZsetOf(delayed, q)
    {
      assert QueueOk(recs, ListOf(pending, q), ZsetOf(delayed, q), q);
    }
    forall x | x in recs && x != id && Queued(recs[x]) ensures Placed(recs, pending', delayed, x) {
      assert Placed(recs, pending, delayed, x);
      assert l == [id] + l[1..];
    }
  }

  /** Taking one entry out of a zset. */
  lemma ZremDetaches(recs: Recs, pending: map<string, seq<Id>>, delayed: map<string, map<Id, int>>, q0: string, id: Id)
    requires QueueInv(recs, pending, delayed) && id in ZsetOf(delayed, q0)
    ensures InQueue(recs, id, q0) && QueuesBut(recs, pending, Undelayed(delayed, id, q0), id)
  {
    var delayed' := Undelayed(delayed, id, q0);
    assert QueueOk(recs, ListOf(pending, q0), ZsetOf(delayed, q0), q0);
    forall q ensures QueueOk(recs, ListOf(pending, q), ZsetOf(delayed', q), q)
                     && id !in ListOf(pending, q) && id !in ZsetOf(delayed', q)
    {
      assert QueueOk(recs, ListOf(pending, q), ZsetOf(delayed, q), q);
    }
    forall x | x in recs && x != id && Queued(recs[x]) ensures Placed(recs, pending, delayed', x) {
      assert Placed(recs, pending, delayed, x);
    }
  }

  lemma ButFrame(recs: Recs, pending: map<string, seq<Id>>, delayed: map<string, map<Id, int>>, id: Id, r: Rec)
    requires QueuesBut(recs, pending, delayed, id)
    ensures QueuesBut(recs[id := r], pending, delayed, id)
  {
    var recs' := recs[id := r];
    forall q ensures QueueOk(recs', ListOf(pending, q), ZsetOf(delayed, q), q)
                     && id !in ListOf(pending, q) && id !in ZsetOf(delayed, q)
    {
      assert QueueOk(recs, ListOf(pending, q), ZsetOf(delayed, q), q);
    }
    forall x | x in recs' && x != id && Queued(recs'[x]) ensures Placed(recs', pending, delayed, x) {
      assert Placed(recs, pending, delayed, x);
    }
  }

  /** A detached task that is not queued (any more) belongs nowhere. */
  lemma LeaveQueue(recs: Recs, pending: map<string, seq<Id>>, delayed: map<string, map<Id, int>>, id: Id, r: Rec)
    requires QueuesBut(recs, pending, delayed, id) && !Queued(r)
    ensures QueueInv(recs[id := r], pending, delayed)
  {
    ButFrame(recs, pending, delayed, id, r);
  }

  /** A detached task that is queued is pushed on its list. */
  lemma EnterList(recs: Recs, pending: map<string, seq<Id>>, delayed: map<string, map<Id, int>>, id: Id, r: Rec)
    requires QueuesBut(recs, pending, delayed, id) && Queued(r)
    ensures QueueInv(recs[id := r], Pushed(pending, id, r.task.queue), delayed)
  {
    ButFrame(recs, pending, delayed, id, r);
    var recs', q0 := recs[id := r], r.task.queue;
    var pending' := Pushed(pending, id, q0);
    forall q ensures QueueOk(recs', ListOf(pending', q), ZsetOf(delayed, q), q) {
      assert QueueOk(recs', ListOf(pending, q), ZsetOf(delayed, q), q);
    }
    forall x | x in recs' && Queued(recs'[x]) ensures Placed(recs', pending', delayed, x) {
      assert x != id ==> Placed(recs', pending, delayed, x);
      assert id in ListOf(pending', q0);
    }
  }

  /** ... or scored by its run_at in its zset. */
  lemma EnterZset(recs: Recs, pending: map<string, seq<Id>>, delayed: map<string, map<Id, int>>, id: Id, r: Rec)
    requires QueuesBut(recs, pending, delayed, id) && Queued(r)
    ensures QueueInv(recs[id := r], pending, Scored(delayed, id, r.task.queue, r.task.runAt))
  {
    ButFrame(recs, pending, delayed, id, r);
    var recs', q0 := recs[id := r], r.task.queue;
    var delayed' := Scored(delayed, id, q0, r.task.runAt);
    forall q ensures QueueOk(recs', ListOf(pending, q), ZsetOf(delayed', q), q) {
      assert QueueOk(recs', ListOf(pending, q), ZsetOf(delayed, q), q);
    }
    forall x | x in recs' && Queued(recs'[x]) ensures Placed(recs', pending, delayed', x) {
      assert x != id ==> Placed(recs', pending, delayed, x);
      assert id in ZsetOf(delayed', q0);
    }
  }

  /** A change that matters to no queue. */
  lemma QueueFrame(recs: Recs, pending: map<string, seq<Id>>, delayed: map<string, map<Id, int>>, id: Id, r: Rec)
    requires QueueInv(recs, pending, delayed) && id in recs
    requires Queued(r) == Queued(recs[id]) && r.task.queue == recs[id].task.queue && r.task.runAt == recs[id].task.runAt
    ensures QueueInv(recs[id := r], pending, delayed)
  {
    var recs' := recs[id := r];
    forall q ensures QueueOk(recs', ListOf(pending, q), ZsetOf(delayed, q), q) {
      assert QueueOk(recs, ListOf(pending, q), ZsetOf(delayed, q), q);
    }
    forall x | x in recs' && Queued(recs'[x]) ensures Placed(recs', pending, delayed, x) {
      assert Placed(recs, pending, delayed, x);
    }
  }

  // ---------------------------------------------------------------------------------------------
  // Inflight, status sets, counters
  // ---------------------------------------------------------------------------------------------

  /** Inflight is exactly the running tasks, scored by their lease. */
  ghost predicate InflightInv(recs: Recs, inflight: map<Id, int>) {
    (forall id :: id in inflight <==> id in recs && recs[id].task.status.Running?)
    && (forall id :: id in inflight ==> inflight[id] == recs[id].leaseUntil)
  }

  function Flown(inflight: map<Id, int>, id: Id, r: Rec): map<Id, int> {
    if r.task.status.Running? then inflight[id := r.leaseUntil] else inflight - {id}
  }

  lemma InflightShift(recs: Recs, inflight: map<Id, int>, id: Id, r: Rec)
    requires InflightInv(recs, inflight)
    ensures InflightInv(recs[id := r], Flown(inflight, id, r))
  {}

  /** Waking a blocked task touches no lease. */
  lemma InflightBlocked(recs: Recs, inflight: map<Id, int>, id: Id, r: Rec)
    requires InflightInv(recs, inflight) && id in recs && !recs[id].task.status.Running? && !r.task.status.Running?
    ensures InflightInv(recs[id := r], inflight)
  {}

  ghost predicate StatusInv(recs: Recs, byStatus: map<Status, set<Id>>) {
    forall s, id :: id in Bucket(byStatus, s) <==> id in recs && recs[id].task.status == s
  }

  function MovedSets(byStatus: map<Status, set<Id>>, id: Id, from: Status, to: Status): map<Status, set<Id>> {
    var b := byStatus[from := Bucket(byStatus, from) - {id}];
    b[to := Bucket(b, to) + {id}]
  }

  lemma StatusShift(recs: Recs, byStatus: map<Status, set<Id>>, id: Id, r: Rec)
    requires StatusInv(recs, byStatus) && id in recs
    ensures StatusInv(recs[id := r], MovedSets(byStatus, id, recs[id].task.status, r.task.status))
  {
    var recs', b' := recs[id := r], MovedSets(byStatus, id, recs[id].task.status, r.task.status);
    forall s, x ensures x in Bucket(b', s) <==> x in recs' && recs'[x].task.status == s {
      assert x in Bucket(byStatus, s) <==> x in recs && recs[x].task.status == s;
    }
  }

  ghost function Group(recs: Recs, typ: string, s: Status): set<Id> {
    set id | id in recs && recs[id].task.typ == typ && recs[id].task.status == s
  }

  ghost predicate IsField(f: string) {
    exists typ, s :: f == Field(typ, s)
  }

  /** Each counter is the size of its group, and there are no other fields. */
  ghost predicate StatsInv(recs: Recs, stats: map<string, int>) {
    (forall typ, s :: Stat(stats, Field(typ, s)) == |Group(recs, typ, s)|) && forall f :: f in stats ==> IsField(f)
  }

  function Bumped(stats: map<string, int>, f: string, delta: int): map<string, int> {
    stats[f := Stat(stats, f) + delta]
  }

  function MovedStats(stats: map<string, int>, typ: string, from: Status, to: Status): map<string, int> {
    Bumped(Bumped(stats, Field(typ, from), -1), Field(typ, to), 1)
  }

  lemma StatsShift(recs: Recs, stats: map<string, int>, id: Id, r: Rec)
    requires StatsInv(recs, stats) && id in recs && r.task.typ == recs[id].task.typ
    ensures StatsInv(recs[id := r], MovedStats(stats, r.task.typ, recs[id].task.status, r.task.status))
  {
    hide Group;
    var recs', from, to, t0 := recs[id := r], recs[id].task.status, r.task.status, r.task.typ;
    var stats' := MovedStats(stats, t0, from, to);
    forall typ, s ensures Stat(stats', Field(typ, s)) == |Group(recs', typ, s)| {
      if Field(typ, s) == Field(t0, from) { FieldInjective(typ, s, t0, from); }
      if Field(typ, s) == Field(t0, to) { FieldInjective(typ, s, t0, to); }
      GroupShift(recs, id, r, typ, s);
    }
    assert IsField(Field(t0, from)) && IsField(Field(t0, to));
  }

  lemma GroupShift(recs: Recs, id: Id, r: Rec, typ: string, s: Status)
    requires id in recs && r.task.typ == recs[id].task.typ
    ensures |Group(recs[id := r], typ, s)| ==
            |Group(recs, typ, s)|
            - (if typ == r.task.typ && s == recs[id].task.status then 1 else 0)
            + (if typ == r.task.typ && s == r.task.status then 1 else 0)
  {
    var g, g' := Group(recs, typ, s), Group(recs[id := r], typ, s);
    var was, now := typ == r.task.typ && s == recs[id].task.status, typ == r.task.typ && s == r.task.status;
    assert (id in g <==> was) && (id in g' <==> now) && forall x :: x != id ==> (x in g <==> x in g');
    GroupCard(g, g', id);
  }

  lemma GroupCard(g: set<Id>, g': set<Id>, id: Id)
    requires forall x :: x != id ==> (x in g <==> x in g')
    ensures |g'| == |g| - (if id in g then 1 else 0) + (if id in g' then 1 else 0)
  {
    var was, now := id in g, id in g';
    if was && !now {
      assert g' == g - {id};
    } else if now && !was {
      assert g' == g + {id};
    } else {
      assert g' == g;
    }
  }

  lemma GroupNew(recs: Recs, id: Id, r: Rec, typ: string, s: Status)
    requires id !in recs
    ensures |Group(recs[id := r], typ, s)| ==
            |Group(recs, typ, s)| + (if typ == r.task.typ && s == r.task.status then 1 else 0)
  {
    var g, g' := Group(recs, typ, s), Group(recs[id := r], typ, s);
    assert id !in g && forall x :: x != id ==> (x in g <==> x in g');
    GroupCard(g, g', id);
  }

  lemma StatsNew(recs: Recs, stats: map<string, int>, id: Id, r: Rec)
    requires StatsInv(recs, stats) && id !in recs
    ensures StatsInv(recs[id := r], Bumped(stats, Field(r.task.typ, r.task.status), 1))
  {
    hide Group;
    var recs', t0, s0 := recs[id := r], r.task.typ, r.task.status;
    var stats' := Bumped(stats, Field(t0, s0), 1);
    forall typ, s ensures Stat(stats', Field(typ, s)) == |Group(recs', typ, s)| {
      if Field(typ, s) == Field(t0, s0) {
        FieldInjective(typ, s, t0, s0);
      }
      GroupNew(recs, id, r, typ, s);
    }
    assert IsField(Field(t0, s0));
  }

  lemma StatusNew(recs: Recs, byStatus: map<Status, set<Id>>, id: Id, r: Rec)
    requires StatusInv(recs, byStatus) && id !in recs
    ensures StatusInv(recs[id := r], byStatus[r.task.status := Bucket(byStatus, r.task.status) + {id}])
  {
    var recs', b' := recs[id := r], byStatus[r.task.status := Bucket(byStatus, r.task.status) + {id}];
    forall s, x ensures x in Bucket(b', s) <==> x in recs' && recs'[x].task.status == s {
      assert x in Bucket(byStatus, s) <==> x in recs && recs[x].task.status == s;
    }
  }

  // ---------------------------------------------------------------------------------------------
  // All of it together
  // ---------------------------------------------------------------------------------------------

  ghost predicate RestInv(recs: Recs, inflight: map<Id, int>, byStatus: map<Status, set<Id>>, stats: map<string, int>) {
    InflightInv(recs, inflight) && StatusInv(recs, byStatus) && StatsInv(recs, stats)
  }

  /** One task changes status. */
  lemma RestShift(recs: Recs, inflight: map<Id, int>, byStatus: map<Status, set<Id>>, stats: map<string, int>, id: Id,
                  r: Rec)
    requires RestInv(recs, inflight, byStatus, stats) && id in recs && r.task.typ == recs[id].task.typ
    ensures var from, to := recs[id].task.status, r.task.status;
            RestInv(recs[id := r], Flown(inflight, id, r), MovedSets(byStatus, id, from, to),
                    MovedStats(stats, r.task.typ, from, to))
  {
    hide InflightInv, StatusInv, StatsInv, MovedSets, MovedStats;
    InflightShift(recs, inflight, id, r);
    StatusShift(recs, byStatus, id, r);
    StatsShift(recs, stats, id, r);
  }

  /** One task changes without changing status or lease. */
  lemma RestFrame(recs: Recs, inflight: map<Id, int>, byStatus: map<Status, set<Id>>, stats: map<string, int>, id: Id,
                  r: Rec)
    requires RestInv(recs, inflight, byStatus, stats) && id in recs && r.task.typ == recs[id].task.typ
    requires r.task.status == recs[id].task.status && r.leaseUntil == recs[id].leaseUntil
    ensures RestInv(recs[id := r], inflight, byStatus, stats)
  {
    var recs' := recs[id := r];
    forall typ, s ensures Group(recs', typ, s) == Group(recs, typ, s) {}
    forall s, x ensures x in Bucket(byStatus, s) <==> x in recs' && recs'[x].task.status == s {
      assert x in Bucket(byStatus, s) <==> x in recs && recs[x].task.status == s;
    }
  }

  lemma RestNew(recs: Recs, inflight: map<Id, int>, byStatus: map<Status, set<Id>>, stats: map<string, int>, id: Id,
                r: Rec)
    requires RestInv(recs, inflight, byStatus, stats) && id !in recs && !r.task.status.Running?
    ensures RestInv(recs[id := r], inflight, byStatus[r.task.status := Bucket(byStatus, r.task.status) + {id}],
                    Bumped(stats, Field(r.task.typ, r.task.status), 1))
  {
    hide StatusInv, StatsInv;
    StatusNew(recs, byStatus, id, r);
    StatsNew(recs, stats, id, r);
  }

  // ---------------------------------------------------------------------------------------------
  // Links between tasks
  // ---------------------------------------------------------------------------------------------

  ghost predicate KidsExact(recs: Recs, children: map<Id, set<Id>>) {
    forall p, c :: c in Kids(children, p) <==> ChildOf(recs, p, c)
  }

  /** The parents field of each hash decodes to the distinct parents; ids are clean names. */
  ghost predicate FieldOk(recs: Recs, parents: map<Id, string>, id: Id)
    requires id in recs
  {
    id != "" && ValidName(id) && id in parents && NoDup(Pieces(parents[id]))
    && ParentSet(Pieces(parents[id])) == Parents(recs[id])
  }

  ghost predicate FieldsOk(recs: Recs, parents: map<Id, string>) {
    forall id :: id in recs ==> FieldOk(recs, parents, id)
  }

  ghost predicate LinkInv(recs: Recs, children: map<Id, set<Id>>, parents: map<Id, string>, bk: map<Key, seq<Id>>) {
    KidsExact(recs, children) && FieldsOk(recs, parents) && ParentsPresent(recs) && ChainsKnown(recs, bk)
  }

  lemma LinksKept(a: Recs, b: Recs, children: map<Id, set<Id>>, parents: map<Id, string>, bk: map<Key, seq<Id>>)
    requires SameDeps(a, b) && LinkInv(a, children, parents, bk)
    ensures LinkInv(b, children, parents, bk)
  {
    forall c | c in a ensures Parents(b[c]) == Parents(a[c]) {}
    forall p, c ensures c in Kids(children, p) <==> ChildOf(b, p, c) {
      assert c in Kids(children, p) <==> ChildOf(a, p, c);
    }
    forall id | id in b ensures FieldOk(b, parents, id) {
      assert FieldOk(a, parents, id);
    }
  }

  /** The parents field of a new hash is read back as the parents it was written from. */
  lemma FieldNew(recs: Recs, parents: map<Id, string>, id: Id, r: Rec, uniq: seq<Id>)
    requires FieldsOk(recs, parents) && id !in recs && id != "" && ValidName(id)
    requires NoDup(uniq) && ParentSet(uniq) == Parents(r) && Parents(r) <= recs.Keys
    ensures FieldsOk(recs[id := r], parents[id := Join(uniq)])
  {
    forall i | 0 <= i < |uniq| ensures uniq[i] != "" && SEP !in uniq[i] {
      assert uniq[i] in ParentSet(uniq);
      assert FieldOk(recs, parents, uniq[i]);
      ValidHasNoSep(uniq[i]);
    }
    ParentsRoundTrip(uniq);
    forall x | x in recs ensures FieldOk(recs[id := r], parents[id := Join(uniq)], x) {
      assert FieldOk(recs, parents, x);
    }
  }

  ghost predicate KidAdded(a: map<Id, set<Id>>, b: map<Id, set<Id>>, ps: set<Id>, id: Id) {
    forall p :: Kids(b, p) == Kids(a, p) + if p in ps then {id} else {}
  }

  lemma KidsNew(recs: Recs, a: map<Id, set<Id>>, b: map<Id, set<Id>>, id: Id, r: Rec)
    requires KidsExact(recs, a) && id !in recs && KidAdded(a, b, Parents(r), id)
    ensures KidsExact(recs[id := r], b)
  {
    forall p, c ensures c in Kids(b, p) <==> ChildOf(recs[id := r], p, c) {
      assert c in Kids(a, p) <==> ChildOf(recs, p, c);
      assert Kids(b, p) == Kids(a, p) + if p in Parents(r) then {id} else {};
    }
  }

  lemma LinkNew(recs: Recs, a: map<Id, set<Id>>, b: map<Id, set<Id>>, parents: map<Id, string>, bk: map<Key, seq<Id>>,
                id: Id, r: Rec, uniq: seq<Id>)
    requires LinkInv(recs, a, parents, bk) && id !in recs && id != "" && ValidName(id)
    requires NoDup(uniq) && ParentSet(uniq) == Parents(r) && Parents(r) <= recs.Keys && KidAdded(a, b, Parents(r), id)
    ensures LinkInv(recs[id := r], b, parents[id := Join(uniq)], Appended(bk, r.task.businessKey, id))
  {
    hide FieldsOk, KidsExact, KidAdded, Parents;
    FieldNew(recs, parents, id, r, uniq);
    KidsNew(recs, a, b, id, r);
  }

  /** What one more parent adds to the count of unfinished ones. */
  lemma WaitingStep(recs: Recs, uniq: seq<Id>, j: nat)
    requires NoDup(uniq) && j < |uniq| && uniq[j] in recs
    ensures var a, b := ParentSet(uniq[..j]), ParentSet(uniq[..j + 1]);
            |Waiting(recs, b)| == |Waiting(recs, a)| + (if IsFinal(StatusOf(recs, uniq[j])) then 0 else 1)
            && (AnyDead(recs, b) <==> AnyDead(recs, a) || Dead(StatusOf(recs, uniq[j])))
  {
    var a, b, p := ParentSet(uniq[..j]), ParentSet(uniq[..j + 1]), uniq[j];
    assert uniq[..j + 1] == uniq[..j] + [p];
    assert b == a + {p} && p !in a;
    assert Waiting(recs, b) == Waiting(recs, a) + if IsFinal(StatusOf(recs, p)) then {} else {p} by {
      hide ParentSet, AnyDead;
    }
    if AnyDead(recs, a) {
      var x :| x in a && x in recs && Dead(StatusOf(recs, x));
      assert x in b;
    }
  }

  /** A dead parent decides the initial status of a fail-fast task; the first one is named. */
  lemma DeadDecides(recs: Recs, uniq: seq<Id>, j: nat, policy: Policy)
    requires j < |uniq| && uniq[j] in recs && Dead(StatusOf(recs, uniq[j])) && !policy.IgnoreParentFail?
    requires !AnyDead(recs, ParentSet(uniq[..j]))
    ensures InitialStatus(recs, ParentSet(uniq), policy).Canceled?
    ensures NamesDead(recs, uniq, ParentFailureReason(uniq[j], StatusOf(recs, uniq[j])))
  {
    assert uniq[j] in ParentSet(uniq);
    FirstOf(recs, uniq[..j]);
    assert forall p :: p in uniq[..j] ==> p in ParentSet(uniq[..j]);
    FirstFound(recs, uniq, j);
  }
}
