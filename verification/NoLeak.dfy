/** In every run, with no assumption on how clients behave: every lcore and every queue that is
    marked as taken is recorded by a connected client, so it is given back when that client leaves. */
module NoLeak {
  import opened ManagerModel
  import opened Coherence

  ghost predicate LcoreRecorded(cs: seq<Client>, id: nat) {
    exists k :: 0 <= k < |cs| && cs[k].registered && id in cs[k].lcores
  }

  ghost predicate QueueRecorded(cs: seq<Client>, i: nat, q: nat) {
    exists k :: 0 <= k < |cs| && q in Recorded(cs[k].queues, i)
  }

  /** Every set bit of the lcore table is recorded by a registered client. */
  ghost predicate LcoresOwned(s: State) {
    forall id :: id in s.g.lcores ==> id < MAX_LCORE && LcoreRecorded(s.clients, id)
  }

  /** Every taken queue of a live interface exists, and is queue 0 or recorded by a client. */
  ghost predicate QueuesOwned(s: State) {
    forall o, q :: o in s.g.ifaces && q in s.g.ifaces[o].taken ==>
      var f := s.g.ifaces[o]; q < f.count && (q == 0 || QueueRecorded(s.clients, f.ifindex, q))
  }

  /** Client `c` records everything client `b` does. */
  ghost predicate RecordsMore(b: Client, c: Client) {
    && (b.registered ==> c.registered)
    && b.lcores <= c.lcores
    && (forall i, q :: q in Recorded(b.queues, i) ==> q in Recorded(c.queues, i))
  }

  /** Nothing recorded is lost when one client's records grow. */
  lemma StillRecorded(cs: seq<Client>, k: nat, c: Client)
    requires k < |cs| && RecordsMore(cs[k], c)
    ensures forall id :: LcoreRecorded(cs, id) ==> LcoreRecorded(cs[k := c], id)
    ensures forall i, q :: QueueRecorded(cs, i, q) ==> QueueRecorded(cs[k := c], i, q)
  {
    var ds := cs[k := c];
    forall id | LcoreRecorded(cs, id) ensures LcoreRecorded(ds, id) {
      var j :| 0 <= j < |cs| && cs[j].registered && id in cs[j].lcores;
      assert ds[j].registered && id in ds[j].lcores;
    }
    forall i, q | QueueRecorded(cs, i, q) ensures QueueRecorded(ds, i, q) {
      var j :| 0 <= j < |cs| && q in Recorded(cs[j].queues, i);
      assert q in Recorded(ds[j].queues, i);
    }
  }

  // ---- Acquiring an interface ----

  lemma AcquireLeaksNothing(s: State, k: nat, i: nat, env: Env)
    requires Coherent(s) && k < |s.clients| && LcoresOwned(s) && QueuesOwned(s)
    ensures var a := Acquire(s.g, s.clients[k], i, env);
            var t := State(a.g, s.clients[k := a.c]);
            && RecordsMore(s.clients[k], a.c) && a.c.registered == s.clients[k].registered
            && LcoresOwned(t) && QueuesOwned(t)
  {
    var a := Acquire(s.g, s.clients[k], i, env);
    StillRecorded(s.clients, k, a.c);
    var t := State(a.g, s.clients[k := a.c]);
    assert QueuesOwned(t);
  }

  lemma {:induction false} AcquireAllLeaksNothing(s: State, k: nat, ifs: seq<nat>, env: Env)
    requires Coherent(s) && k < |s.clients| && LcoresOwned(s) && QueuesOwned(s)
    ensures var r := AcquireAll(s.g, s.clients[k], ifs, env);
            var t := State(r.g, s.clients[k := r.c]);
            && LcoresOwned(t) && QueuesOwned(t)
    decreases ifs
  {
    if ifs == [] {
      StillRecorded(s.clients, k, s.clients[k].(registered := true));
    } else {
      var a := Acquire(s.g, s.clients[k], ifs[0], env);
      AcquireIsCoherent(s, k, ifs[0], env);
      AcquireLeaksNothing(s, k, ifs[0], env);
      if a.obj.Some? {
        var s1 := State(a.g, s.clients[k := a.c]);
        AcquireAllLeaksNothing(s1, k, ifs[1..], env);
        var r := AcquireAll(a.g, a.c, ifs[1..], env);
        assert s1.clients[k := r.c] == s.clients[k := r.c];
      }
    }
  }

  // ---- Messages on an interface the client holds ----

  /** The client at `k` holds object `o` for interface `i`. */
  ghost predicate Serves(s: State, k: nat, i: nat, o: nat) {
    k < |s.clients| && i in s.clients[k].held && s.clients[k].held[i] == o && o in s.g.ifaces
  }

  lemma GetQueueLeaksNothing(s: State, k: nat, i: nat, o: nat)
    requires Coherent(s) && QueuesOwned(s) && Serves(s, k, i, o)
    ensures var r := TakeQueue(s.g, s.clients[k], o, i);
            RecordsMore(s.clients[k], r.c) && QueuesOwned(State(r.g, s.clients[k := r.c]))
  {
    assert ClientOk(s.g, s.clients[k]);
    var r := TakeQueue(s.g, s.clients[k], o, i);
    var t := State(r.g, s.clients[k := r.c]);
    StillRecorded(s.clients, k, r.c);
    forall p, q | p in t.g.ifaces && q in t.g.ifaces[p].taken
      ensures var f := t.g.ifaces[p]; q < f.count && (q == 0 || QueueRecorded(t.clients, f.ifindex, q))
    {
      if q !in s.g.ifaces[p].taken && q != 0 {
        assert q in Recorded(t.clients[k].queues, i);
      }
    }
  }

  lemma PutQueueLeaksNothing(s: State, k: nat, i: nat, o: nat, q: nat)
    requires Coherent(s) && QueuesOwned(s) && Serves(s, k, i, o)
    ensures var r := ReturnQueue(s.g, s.clients[k], o, i, q);
            QueuesOwned(State(r.g, s.clients[k := r.c]))
  {
    assert ClientOk(s.g, s.clients[k]);
    var r := ReturnQueue(s.g, s.clients[k], o, i, q);
    var t := State(r.g, s.clients[k := r.c]);
    forall p, x | p in t.g.ifaces && x in t.g.ifaces[p].taken
      ensures var f := t.g.ifaces[p]; x < f.count && (x == 0 || QueueRecorded(t.clients, f.ifindex, x))
    {
      var j := s.g.ifaces[p].ifindex;
      if x != 0 {
        var m :| 0 <= m < |s.clients| && x in Recorded(s.clients[m].queues, j);
        // If x is the queue being put, p is not the object it is put on, so j is not i.
        assert p != o ==> j != i;
        assert x in Recorded(t.clients[m].queues, j);
      }
    }
  }

  lemma QueueMessageLeaksNothing(s: State, k: nat, i: nat, o: nat, m: Message, env: Env)
    requires Coherent(s) && QueuesOwned(s) && Serves(s, k, i, o) && Names(m, i)
    ensures var r := OnInterface(s.g, s.clients[k], o, m, env);
            QueuesOwned(State(r.g, s.clients[k := r.c]))
  {
    if m.GetQueue? {
      GetQueueLeaksNothing(s, k, i, o);
    } else if m.PutQueue? {
      PutQueueLeaksNothing(s, k, i, o, m.queue);
    } else {
      var r := OnInterface(s.g, s.clients[k], o, m, env);
      SameQueuesOwned(s, State(r.g, s.clients[k := r.c]), k);
    }
  }

  lemma OnInterfaceLeaksNothing(s: State, k: nat, i: nat, o: nat, m: Message, env: Env)
    requires Coherent(s) && LcoresOwned(s) && QueuesOwned(s) && Serves(s, k, i, o) && Names(m, i)
    ensures var r := OnInterface(s.g, s.clients[k], o, m, env);
            var t := State(r.g, s.clients[k := r.c]);
            LcoresOwned(t) && QueuesOwned(t)
  {
    var r := OnInterface(s.g, s.clients[k], o, m, env);
    QueueMessageLeaksNothing(s, k, i, o, m, env);
    assert ClientOk(s.g, s.clients[k]);
    OnInterfaceKeepsPointers(s.g, s.clients[k], o, i, m, env);
    SameLcoresOwned(s, State(r.g, s.clients[k := r.c]), k);
  }

  lemma SameLcoresOwned(s: State, t: State, k: nat)
    requires LcoresOwned(s) && k < |s.clients| == |t.clients|
    requires t.clients == s.clients[k := t.clients[k]] && t.g.lcores == s.g.lcores
    requires t.clients[k].lcores == s.clients[k].lcores
    requires t.clients[k].registered == s.clients[k].registered
    ensures LcoresOwned(t)
  {
    forall id | id in t.g.lcores ensures LcoreRecorded(t.clients, id) {
      var j :| 0 <= j < |s.clients| && s.clients[j].registered && id in s.clients[j].lcores;
      assert t.clients[j].registered && id in t.clients[j].lcores;
    }
  }

  lemma SameQueuesOwned(s: State, t: State, k: nat)
    requires QueuesOwned(s) && k < |s.clients| == |t.clients|
    requires t.clients == s.clients[k := t.clients[k]]
    requires t.clients[k].queues == s.clients[k].queues
    requires t.g.ifaces.Keys == s.g.ifaces.Keys
    requires forall o :: o in s.g.ifaces ==>
               && t.g.ifaces[o].taken == s.g.ifaces[o].taken
               && t.g.ifaces[o].count == s.g.ifaces[o].count
               && t.g.ifaces[o].ifindex == s.g.ifaces[o].ifindex
    ensures QueuesOwned(t)
  {
    forall p, q | p in t.g.ifaces && q in t.g.ifaces[p].taken && q != 0
      ensures QueueRecorded(t.clients, t.g.ifaces[p].ifindex, q)
    {
      var i := s.g.ifaces[p].ifindex;
      var j :| 0 <= j < |s.clients| && q in Recorded(s.clients[j].queues, i);
      assert q in Recorded(t.clients[j].queues, i);
    }
  }

  // ---- Lcore messages ----

  lemma LcoreMessageLeaksNothing(s: State, k: nat, m: Message, env: Env)
    requires Coherent(s) && k < |s.clients| && LcoresOwned(s) && QueuesOwned(s)
    requires m.GetLcore? || m.PutLcore?
    ensures var r := Handle(s.g, s.clients[k], m, env);
            var t := State(r.g, s.clients[k := r.c]);
            LcoresOwned(t) && QueuesOwned(t)
  {
    var r := Handle(s.g, s.clients[k], m, env);
    var t := State(r.g, s.clients[k := r.c]);
    forall id | id in t.g.lcores ensures id < MAX_LCORE && LcoreRecorded(t.clients, id) {
      if id in s.g.lcores {
        var j :| 0 <= j < |s.clients| && s.clients[j].registered && id in s.clients[j].lcores;
        assert t.clients[j].registered && id in t.clients[j].lcores;
      } else {
        assert t.clients[k].registered && id in t.clients[k].lcores;
      }
    }
    SameQueuesOwned(s, t, k);
  }

  lemma HandleOnLeaksNothing(s: State, k: nat, i: nat, m: Message, env: Env)
    requires Coherent(s) && k < |s.clients| && LcoresOwned(s) && QueuesOwned(s) && Names(m, i)
    ensures var r := HandleOn(s.g, s.clients[k], i, m, env);
            var t := State(r.g, s.clients[k := r.c]);
            && LcoresOwned(t) && QueuesOwned(t)
  {
    var a := Acquire(s.g, s.clients[k], i, env);
    AcquireIsCoherent(s, k, i, env);
    AcquireLeaksNothing(s, k, i, env);
    if a.obj.Some? {
      var s1 := State(a.g, s.clients[k := a.c]);
      OnInterfaceLeaksNothing(s1, k, i, a.obj.value, m, env);
      var r := OnInterface(a.g, a.c, a.obj.value, m, env);
      assert s1.clients[k := r.c] == s.clients[k := r.c];
    }
  }

  lemma HandleLeaksNothing(s: State, k: nat, m: Message, env: Env)
    requires Coherent(s) && k < |s.clients| && LcoresOwned(s) && QueuesOwned(s)
    ensures var r := Handle(s.g, s.clients[k], m, env);
            var t := State(r.g, s.clients[k := r.c]);
            && LcoresOwned(t) && QueuesOwned(t)
  {
    match m
    case Register(ifs) => AcquireAllLeaksNothing(s, k, ifs, env);
    case GetLcore(_) => LcoreMessageLeaksNothing(s, k, m, env);
    case PutLcore(_) => LcoreMessageLeaksNothing(s, k, m, env);
    case Ignored => assert s.clients[k := s.clients[k]] == s.clients;
    case XskMapFd(i) => HandleOnLeaksNothing(s, k, i, m, env);
    case UdpFilter(i, _, _) => HandleOnLeaksNothing(s, k, i, m, env);
    case GetQueue(i) => HandleOnLeaksNothing(s, k, i, m, env);
    case PutQueue(i, _) => HandleOnLeaksNothing(s, k, i, m, env);
    case AddFlow(i) => HandleOnLeaksNothing(s, k, i, m, env);
    case DelFlow(i, _) => HandleOnLeaksNothing(s, k, i, m, env);
  }

  // ---- Disconnection ----

  lemma LeaveKeepsLcoresOwned(s: State, k: nat, env: Env)
    requires k < |s.clients| && LcoresOwned(s)
    ensures LcoresOwned(State(Leave(s.g, s.clients[k], env), Without(s.clients, k)))
  {
    var t := State(Leave(s.g, s.clients[k], env), Without(s.clients, k));
    forall id | id in t.g.lcores ensures id < MAX_LCORE && LcoreRecorded(t.clients, id) {
      var j :| 0 <= j < |s.clients| && s.clients[j].registered && id in s.clients[j].lcores;
      var j' := if j < k then j else j - 1;
      assert t.clients[j'] == s.clients[j];
    }
  }

  lemma RecordedByAnother(cs: seq<Client>, k: nat, i: nat, q: nat)
    requires k < |cs| && QueueRecorded(cs, i, q) && q !in Recorded(cs[k].queues, i)
    ensures QueueRecorded(Without(cs, k), i, q)
  {
    var j :| 0 <= j < |cs| && q in Recorded(cs[j].queues, i);
    assert Without(cs, k)[if j < k then j else j - 1] == cs[j];
  }

  /** A queue still taken after a client has left is recorded by a client that stays. */
  lemma QueueOfAnother(s: State, k: nat, o: nat, q: nat)
    requires Coherent(s) && k < |s.clients| && QueuesOwned(s)
    requires o in IfacesWithout(s.g.ifaces, s.clients[k])
    requires q in IfacesWithout(s.g.ifaces, s.clients[k])[o].taken
    ensures q < s.g.ifaces[o].count
    ensures q == 0 || QueueRecorded(Without(s.clients, k), s.g.ifaces[o].ifindex, q)
  {
    var i := s.g.ifaces[o].ifindex;
    assert q in s.g.ifaces[o].taken;
    RecordingImpliesHolding(s, k, i, o);
    if q != 0 { RecordedByAnother(s.clients, k, i, q); }
  }

  lemma LeaveKeepsQueuesOwned(s: State, k: nat, env: Env)
    requires Coherent(s) && k < |s.clients| && QueuesOwned(s)
    ensures QueuesOwned(State(Leave(s.g, s.clients[k], env), Without(s.clients, k)))
  {
    var ifaces := IfacesWithout(s.g.ifaces, s.clients[k]);
    forall o, q | o in ifaces && q in ifaces[o].taken
      ensures var f := ifaces[o]; q < f.count && (q == 0 || QueueRecorded(Without(s.clients, k), f.ifindex, q))
    {
      QueueOfAnother(s, k, o, q);
    }
  }

  /** A client with queue or flow records on interface `i` holds the object that serves it. */
  lemma RecordingImpliesHolding(s: State, k: nat, i: nat, o: nat)
    requires Coherent(s) && k < |s.clients| && o in s.g.ifaces && s.g.ifaces[o].ifindex == i
    ensures i in s.clients[k].held ==> s.clients[k].held[i] == o
    ensures Recorded(s.clients[k].queues, i) != {} || Recorded(s.clients[k].flows, i) != {} ==>
              i in s.clients[k].held
  {
    assert ClientOk(s.g, s.clients[k]);
  }

  // ---- Steps and runs ----

  lemma StepLeaksNothing(s: State, e: Event)
    requires Coherent(s) && LcoresOwned(s) && QueuesOwned(s)
    ensures LcoresOwned(Step(s, e)) && QueuesOwned(Step(s, e))
  {
    match e
    case Accept(fd) => AcceptLeaksNothing(s, fd);
    case Deliver(fd, m, env) =>
      if Find(s.clients, fd) < |s.clients| {
        HandleLeaksNothing(s, Find(s.clients, fd), m, env);
      }
    case Close(fd, env) =>
      if Find(s.clients, fd) < |s.clients| {
        LeaveKeepsLcoresOwned(s, Find(s.clients, fd), env);
        LeaveKeepsQueuesOwned(s, Find(s.clients, fd), env);
      }
  }

  lemma AcceptLeaksNothing(s: State, fd: int)
    requires LcoresOwned(s) && QueuesOwned(s)
    ensures var t := Step(s, Accept(fd));
            LcoresOwned(t) && QueuesOwned(t)
  {
    var t := Step(s, Accept(fd));
    assert forall j :: 0 <= j < |s.clients| ==> t.clients[j] == s.clients[j];
    forall id | LcoreRecorded(s.clients, id) ensures LcoreRecorded(t.clients, id) {
      var j :| 0 <= j < |s.clients| && s.clients[j].registered && id in s.clients[j].lcores;
      assert t.clients[j].registered && id in t.clients[j].lcores;
    }
    forall i, q | QueueRecorded(s.clients, i, q) ensures QueueRecorded(t.clients, i, q) {
      var j :| 0 <= j < |s.clients| && q in Recorded(s.clients[j].queues, i);
      assert q in Recorded(t.clients[j].queues, i);
    }
  }

  /** No lcore and no queue is ever leaked. */
  lemma {:induction false} RunsLeakNothing(rules: set<Rule>, es: seq<Event>)
    ensures LcoresOwned(Exec(Init(rules), es)) && QueuesOwned(Exec(Init(rules), es))
  {
    if es != [] {
      var init := es[..|es| - 1];
      RunsLeakNothing(rules, init);
      RunsAreCoherent(rules, init);
      StepLeaksNothing(Exec(Init(rules), init), es[|es| - 1]);
    }
  }

  /** Once the last client has left, every lcore is free and every interface is torn down. */
  lemma NothingLeftBehind(rules: set<Rule>, es: seq<Event>)
    requires Exec(Init(rules), es).clients == []
    ensures Exec(Init(rules), es).g.lcores == {} && Exec(Init(rules), es).g.ifaces == map[]
  {
    var s := Exec(Init(rules), es);
    RunsLeakNothing(rules, es);
    RunsAreCoherent(rules, es);
    assert forall id :: id in s.g.lcores ==> LcoreRecorded(s.clients, id);
    assert forall o :: o in s.g.ifaces ==> Holders(s.clients, s.g.ifaces[o].ifindex, o) > 0;
  }
}
