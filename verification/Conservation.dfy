/** The shared tables as unions of what the clients record, one kind of resource at a time: each
    result asks for polite releases of that kind only. */
module Conservation {
  import opened ManagerModel
  import opened Coherence
  import opened NoLeak
  import opened Exclusivity
  import opened Strays

  function Union(ss: seq<set<nat>>): set<nat> {
    if ss == [] then {} else Union(ss[..|ss| - 1]) + ss[|ss| - 1]
  }

  function Total(ss: seq<set<nat>>): nat {
    if ss == [] then 0 else Total(ss[..|ss| - 1]) + |ss[|ss| - 1]|
  }

  ghost predicate PairwiseDisjoint(ss: seq<set<nat>>) {
    forall j, k :: 0 <= j < |ss| && 0 <= k < |ss| && j != k ==> ss[j] !! ss[k]
  }

  lemma {:induction false} InUnion(ss: seq<set<nat>>, x: nat)
    ensures x in Union(ss) <==> exists k :: 0 <= k < |ss| && x in ss[k]
  {
    if ss != [] {
      InUnion(ss[..|ss| - 1], x);
    }
  }

  lemma {:induction false} DisjointUnionSize(ss: seq<set<nat>>)
    requires PairwiseDisjoint(ss)
    ensures |Union(ss)| == Total(ss)
  {
    if ss != [] {
      var init, last := ss[..|ss| - 1], ss[|ss| - 1];
      DisjointUnionSize(init);
      forall x | x in Union(init) ensures x !in last {
        InUnion(init, x);
        var k :| 0 <= k < |init| && x in init[k];
        assert ss[k] !! last;
      }
      assert |Union(init) + last| == |Union(init)| + |last|;
    }
  }

  /** The numbers below `n`. */
  function Below(n: nat): (r: set<nat>)
    ensures forall q: nat :: q in r <==> q < n
    ensures |r| == n
  {
    if n == 0 then {} else Below(n - 1) + {n - 1}
  }

  // ---- What each client records ----

  function LcoreRecords(cs: seq<Client>): seq<set<nat>> {
    seq(|cs|, k requires 0 <= k < |cs| => cs[k].lcores)
  }

  function QueueRecords(cs: seq<Client>, i: nat): seq<set<nat>> {
    seq(|cs|, k requires 0 <= k < |cs| => Recorded(cs[k].queues, i))
  }

  function FlowRecords(cs: seq<Client>, i: nat): seq<set<nat>> {
    seq(|cs|, k requires 0 <= k < |cs| => Recorded(cs[k].flows, i))
  }

  /** The members of `ss` are what the clients record of the resources `r(0)`, `r(1)`, ... */
  ghost predicate RecordsOf(cs: seq<Client>, r: nat -> Resource, ss: seq<set<nat>>) {
    |ss| == |cs| && forall k, x: nat :: 0 <= k < |cs| ==> (x in ss[k] <==> Records(cs[k], r(x)))
  }

  lemma RecordsAreDisjoint(s: State, r: nat -> Resource, ss: seq<set<nat>>)
    requires RecordsOf(s.clients, r, ss) && forall x: nat :: ExclusiveFor(s, r(x))
    ensures PairwiseDisjoint(ss)
  {
    forall j, k | 0 <= j < |ss| && 0 <= k < |ss| && j != k ensures ss[j] !! ss[k] {
      forall x: nat ensures !(x in ss[j] && x in ss[k]) {
        assert ExclusiveFor(s, r(x));
        assert x in ss[j] <==> Records(s.clients[j], r(x));
        assert x in ss[k] <==> Records(s.clients[k], r(x));
      }
    }
  }

  /** A resource about which the run was polite is exclusive at its end. */
  lemma ExclusiveAtEnd(rules: set<Rule>, es: seq<Event>, r: Resource)
    requires AllPoliteFor(Init(rules), es, r)
    ensures ExclusiveFor(Exec(Init(rules), es), r)
  {
    AlwaysExclusiveForIff(rules, es, r);
  }

  // ---- Lcores ----

  /** The bitset is the disjoint union of the clients' lcore sets after every run in which nobody
      puts an lcore that another client holds, whatever happens to queues and flows. */
  lemma LcoresAreUnion(rules: set<Rule>, es: seq<Event>)
    requires forall id :: AllPoliteFor(Init(rules), es, Lcore(id))
    ensures var s := Exec(Init(rules), es);
            var ss := LcoreRecords(s.clients);
            s.g.lcores == Union(ss) && PairwiseDisjoint(ss) && |s.g.lcores| == Total(ss)
  {
    var s := Exec(Init(rules), es);
    var ss, r := LcoreRecords(s.clients), (id: nat) => Lcore(id);
    RunsAreSound(rules, es);
    forall id: nat ensures ExclusiveFor(s, r(id)) { ExclusiveAtEnd(rules, es, Lcore(id)); }
    RecordsAreDisjoint(s, r, ss);
    DisjointUnionSize(ss);
    forall id: nat ensures id in s.g.lcores <==> id in Union(ss) {
      InUnion(ss, id);
      assert ExclusiveFor(s, r(id));
      if id in s.g.lcores {
        var k :| 0 <= k < |s.clients| && id in s.clients[k].lcores;
        assert id in ss[k];
      }
    }
  }

  // ---- Queues ----

  /** Ownership of the queues of interface `i` is in order. */
  ghost predicate QueuesExclusive(s: State, i: nat) {
    Reserved(s.g, i) && forall q :: ExclusiveFor(s, Queue(i, q))
  }

  /** Nobody puts a queue of interface `i` that another client holds, or its queue 0. */
  ghost predicate QueuePolite(rules: set<Rule>, es: seq<Event>, i: nat) {
    AllSpareZero(Init(rules), es, i) && forall q :: AllPoliteFor(Init(rules), es, Queue(i, q))
  }

  lemma QueuesExclusiveAtEnd(rules: set<Rule>, es: seq<Event>, i: nat)
    requires QueuePolite(rules, es, i)
    ensures QueuesExclusive(Exec(Init(rules), es), i)
  {
    var s := Exec(Init(rules), es);
    AlwaysReservedIff(rules, es, i);
    forall q ensures ExclusiveFor(s, Queue(i, q)) { ExclusiveAtEnd(rules, es, Queue(i, q)); }
  }

  /** The taken queues are queue 0 and the disjoint union of the clients' records. */
  lemma TakenIsUnion(s: State, i: nat)
    requires Sound(s) && QueuesExclusive(s, i) && Live(s.g, i)
    ensures var f, ss := s.g.ifaces[s.g.weak[i]], QueueRecords(s.clients, i);
            && f.taken == {0} + Union(ss) && 0 !in Union(ss) && PairwiseDisjoint(ss)
            && f.taken <= Below(f.count)
  {
    var f, ss, r := s.g.ifaces[s.g.weak[i]], QueueRecords(s.clients, i), (q: nat) => Queue(i, q);
    forall q: nat ensures ExclusiveFor(s, r(q)) { assert ExclusiveFor(s, Queue(i, q)); }
    RecordsAreDisjoint(s, r, ss);
    forall q: nat
      ensures q in f.taken <==> q == 0 || q in Union(ss)
      ensures q in f.taken ==> q < f.count
      ensures q in Union(ss) ==> q != 0
    {
      InUnion(ss, q);
      assert ExclusiveFor(s, Queue(i, q));
      if q in f.taken && q != 0 {
        assert QueueRecorded(s.clients, i, q);
        var k :| 0 <= k < |s.clients| && q in Recorded(s.clients[k].queues, i);
        assert q in ss[k];
      }
    }
  }

  /** The free queues of an interface. */
  function FreeQueues(f: Iface): set<nat> {
    Below(f.count) - f.taken
  }

  lemma FreeAndHeld(s: State, i: nat)
    requires Sound(s) && QueuesExclusive(s, i) && Live(s.g, i)
    ensures var f := s.g.ifaces[s.g.weak[i]];
            |FreeQueues(f)| + Total(QueueRecords(s.clients, i)) == f.count - 1
  {
    var f, ss := s.g.ifaces[s.g.weak[i]], QueueRecords(s.clients, i);
    TakenIsUnion(s, i);
    DisjointUnionSize(ss);
    assert |{0} + Union(ss)| == 1 + |Union(ss)|;
    assert |Below(f.count)| == |FreeQueues(f)| + |f.taken| by {
      assert Below(f.count) == FreeQueues(f) + f.taken;
    }
  }

  /** Free queues, the queues clients hold and the system's queue add up to the channel count, however
      often the interface has been torn down and set up again. */
  lemma QueuesConserved(rules: set<Rule>, es: seq<Event>, i: nat)
    requires QueuePolite(rules, es, i) && Live(Exec(Init(rules), es).g, i)
    ensures var s := Exec(Init(rules), es);
            var f := s.g.ifaces[s.g.weak[i]];
            |FreeQueues(f)| + Total(QueueRecords(s.clients, i)) == f.count - 1
  {
    QueuesExclusiveAtEnd(rules, es, i);
    RunsAreSound(rules, es);
    FreeAndHeld(Exec(Init(rules), es), i);
  }

  /** A request on an interface that is served. */
  lemma ServedRequest(s: State, k: nat, i: nat, o: nat)
    requires Sound(s) && QueuesExclusive(s, i) && Serves(s, k, i, o)
    ensures var r := TakeQueue(s.g, s.clients[k], o, i);
            && r.reply != Code(0)
            && (r.reply == Code(-1) <==> Total(QueueRecords(s.clients, i)) == s.g.ifaces[o].count - 1)
  {
    var f := s.g.ifaces[o];
    MarksOn(s, k, i, o, i);
    FreeAndHeld(s, i);
    var q := LowestFree(0, f.count, f.taken);
    if q >= 0 {
      assert q in FreeQueues(f);
    } else {
      assert FreeQueues(f) == {};
    }
  }

  lemma AcquireKeepsQueueRecords(s: State, k: nat, i: nat, env: Env)
    requires Sound(s) && QueuesExclusive(s, i) && k < |s.clients|
    ensures var a := Acquire(s.g, s.clients[k], i, env);
            var t := State(a.g, s.clients[k := a.c]);
            Sound(t) && QueuesExclusive(t, i) && QueueRecords(t.clients, i) == QueueRecords(s.clients, i)
  {
    var a := Acquire(s.g, s.clients[k], i, env);
    var t := State(a.g, s.clients[k := a.c]);
    AcquireIsCoherent(s, k, i, env);
    AcquireLeaksNothing(s, k, i, env);
    AcquireReserves(s, k, i, env, i);
    forall q ensures ExclusiveFor(t, Queue(i, q)) {
      assert ExclusiveFor(s, Queue(i, q));
      AcquireIsExclusive(s, k, i, env, Queue(i, q));
    }
  }

  /** The channel count of interface `i`, which may be about to be opened. */
  function ChannelCount(g: Globals, i: nat, env: Env): nat {
    if Live(g, i) then g.ifaces[g.weak[i]].count else if i in env.channels then env.channels[i] else 0
  }

  /** A connected client asks for a queue after any run that was polite about the interface, whether
      it holds the interface, shares it or is the first to open it: it never gets queue 0, and is
      refused exactly when the interface cannot be opened or clients hold all queues but queue 0. */
  lemma QueueRefusedIffAllHeld(rules: set<Rule>, es: seq<Event>, fd: int, i: nat, env: Env)
    requires QueuePolite(rules, es, i)
    requires Find(Exec(Init(rules), es).clients, fd) < |Exec(Init(rules), es).clients|
    ensures var s := Exec(Init(rules), es);
            var reply := ReplyTo(s, Deliver(fd, GetQueue(i), env));
            && reply != Code(0)
            && (reply == Code(-1) <==>
                || !CanAcquire(s.g, s.clients[Find(s.clients, fd)], i, env)
                || Total(QueueRecords(s.clients, i)) == ChannelCount(s.g, i, env) - 1)
  {
    var s := Exec(Init(rules), es);
    var k := Find(s.clients, fd);
    QueuesExclusiveAtEnd(rules, es, i);
    RunsAreSound(rules, es);
    AnyRequest(s, k, i, env);
  }

  lemma AnyRequest(s: State, k: nat, i: nat, env: Env)
    requires Sound(s) && QueuesExclusive(s, i) && k < |s.clients|
    ensures var reply := Handle(s.g, s.clients[k], GetQueue(i), env).reply;
            && reply != Code(0)
            && (reply == Code(-1) <==>
                || !CanAcquire(s.g, s.clients[k], i, env)
                || Total(QueueRecords(s.clients, i)) == ChannelCount(s.g, i, env) - 1)
  {
    var a := Acquire(s.g, s.clients[k], i, env);
    AcquireIsCoherent(s, k, i, env);
    AcquireKeepsQueueRecords(s, k, i, env);
    assert ClientOk(s.g, s.clients[k]);
    if a.obj.Some? {
      ServedRequest(State(a.g, s.clients[k := a.c]), k, i, a.obj.value);
      assert a.g.ifaces[a.obj.value].count == ChannelCount(s.g, i, env);
    }
  }

  // ---- Flows ----

  /** The interface has been opened, and had no more than one rule at the start. */
  predicate OpenedWithFew(rules: set<Rule>, s: State, i: nat) {
    i in s.g.weak && |Locations(rules, i)| <= 1
  }

  /** After every run in which nobody deletes another client's rule, the kernel's flow table of an
      interface is the disjoint union of the clients' records and of the strays. If deletions at
      disconnection work, the strays are rules from before; there are none on an opened interface that
      had no more than one, if the kernel does as asked when it is cleared. */
  lemma FlowTableIsUnion(rules: set<Rule>, es: seq<Event>, i: nat)
    requires forall l :: AllPoliteFor(Init(rules), es, Flow(i, l))
    ensures var s := Exec(Init(rules), es);
            var ss, strays, table := FlowRecords(s.clients, i), StraysOn(s, i), Locations(s.g.rules, i);
            && table == Union(ss) + strays && PairwiseDisjoint(ss) && Union(ss) !! strays
            && |table| == Total(ss) + |strays|
            && (AllDeletesWork(es) ==> strays <= Locations(rules, i))
            && (AllDeletesWork(es) && AllListTruly(Init(rules), es, i) && OpenedWithFew(rules, s, i) ==> strays == {})
  {
    var s := Exec(Init(rules), es);
    var ss, r, strays := FlowRecords(s.clients, i), (l: nat) => Flow(i, l), StraysOn(s, i);
    forall l: nat ensures ExclusiveFor(s, r(l)) { ExclusiveAtEnd(rules, es, Flow(i, l)); }
    RecordsAreDisjoint(s, r, ss);
    DisjointUnionSize(ss);
    forall l: nat
      ensures l in Locations(s.g.rules, i) <==> l in Union(ss) || l in strays
      ensures !(l in Union(ss) && l in strays)
    {
      assert ExclusiveFor(s, r(l));
      InFlowUnion(s, i, l);
      InLocations(s.g.rules, i, l);
      InStraysOn(s, i, l);
    }
    assert Locations(s.g.rules, i) == Union(ss) + strays;
    if AllDeletesWork(es) {
      forall l: nat | l in strays ensures l in Locations(rules, i) {
        InStraysOn(s, i, l);
        StraysAreOld(rules, es, (i, l));
        InLocations(rules, i, l);
      }
      if AllListTruly(Init(rules), es, i) { NoStraysIff(rules, es, i); }
    }
  }

  lemma InFlowUnion(s: State, i: nat, l: nat)
    requires ExclusiveFor(s, Flow(i, l))
    ensures l in Union(FlowRecords(s.clients, i)) <==> FlowRecorded(s.clients, (i, l))
    ensures l in Union(FlowRecords(s.clients, i)) ==> (i, l) in s.g.rules
  {
    var ss := FlowRecords(s.clients, i);
    InUnion(ss, l);
    if k :| 0 <= k < |s.clients| && l in Recorded(s.clients[k].flows, i) {
      assert l in ss[k] && Records(s.clients[k], Flow(i, l));
    }
  }
}
