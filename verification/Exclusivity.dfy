/** Who may rely on exclusive ownership. The release handlers test only the shared table, so a
    client can give away what another one holds. Resource by resource: ownership stays exclusive
    exactly as long as no client releases the resource while another one records it. */
module Exclusivity {
  import opened Options
  import opened ManagerModel
  import opened Coherence
  import opened NoLeak

  datatype Resource = Lcore(id: nat) | Queue(ifindex: nat, queue: nat) | Flow(ifindex: nat, loc: nat)

  /** Queue `q` is marked on the live object of interface `i`. */
  predicate Taken(g: Globals, i: nat, q: nat) {
    Live(g, i) && q in g.ifaces[g.weak[i]].taken
  }

  /** The shared tables say that the resource is in use. Queue 0 is not for clients. */
  predicate Marked(g: Globals, r: Resource) {
    match r
    case Lcore(id) => id in g.lcores
    case Queue(i, q) => q != 0 && Taken(g, i, q)
    case Flow(i, l) => (i, l) in g.rules
  }

  predicate Records(c: Client, r: Resource) {
    match r
    case Lcore(id) => id in c.lcores
    case Queue(i, q) => q in Recorded(c.queues, i)
    case Flow(i, l) => l in Recorded(c.flows, i)
  }

  /** A client other than the one at `k` records the resource. */
  predicate Other(cs: seq<Client>, k: nat, r: Resource) {
    exists j :: 0 <= j < |cs| && j != k && Records(cs[j], r)
  }

  /** At most one client records the resource, and then it is marked. */
  ghost predicate ExclusiveFor(s: State, r: Resource) {
    && (forall k :: 0 <= k < |s.clients| && Records(s.clients[k], r) ==> Marked(s.g, r))
    && (forall j, k :: 0 <= j < |s.clients| && 0 <= k < |s.clients| && j != k ==>
          !(Records(s.clients[j], r) && Records(s.clients[k], r)))
  }

  /** Queue 0 of interface `i` stays reserved for the system. */
  predicate Reserved(g: Globals, i: nat) {
    Live(g, i) ==> 0 in g.ifaces[g.weak[i]].taken
  }

  ghost predicate Exclusive(s: State) {
    (forall i :: Reserved(s.g, i)) && (forall r :: ExclusiveFor(s, r))
  }

  /** The invariants that every run has. */
  ghost predicate Sound(s: State) {
    Coherent(s) && LcoresOwned(s) && QueuesOwned(s)
  }

  lemma RunsAreSound(rules: set<Rule>, es: seq<Event>)
    ensures Sound(Exec(Init(rules), es))
  {
    RunsAreCoherent(rules, es);
    RunsLeakNothing(rules, es);
  }

  /** `get_interface` will not fail. */
  predicate CanAcquire(g: Globals, c: Client, i: nat, env: Env) {
    i in c.held || Live(g, i) || i in env.channels
  }

  /** The message makes the daemon release the resource, if it is marked. */
  predicate Releases(g: Globals, c: Client, m: Message, env: Env, r: Resource) {
    match m
    case PutLcore(id) => c.registered && r == Lcore(id)
    case PutQueue(i, q) => CanAcquire(g, c, i, env) && r == Queue(i, q)
    case DelFlow(i, l) => CanAcquire(g, c, i, env) && (i, l) !in env.delFails && r == Flow(i, l)
    case _ => false
  }

  /** The message, from the client at `k`, does not release the resource, or nobody else records it. */
  predicate PoliteMessage(s: State, k: nat, m: Message, env: Env, r: Resource)
    requires k < |s.clients|
  {
    Releases(s.g, s.clients[k], m, env, r) ==> !Other(s.clients, k, r)
  }

  predicate PoliteFor(s: State, e: Event, r: Resource) {
    e.Deliver? && Find(s.clients, e.fd) < |s.clients| ==>
      PoliteMessage(s, Find(s.clients, e.fd), e.msg, e.env, r)
  }

  /** The message does not release queue 0 of interface `i`. */
  predicate SparesMessage(s: State, k: nat, m: Message, env: Env, i: nat)
    requires k < |s.clients|
  {
    m == PutQueue(i, 0) ==> !CanAcquire(s.g, s.clients[k], i, env)
  }

  predicate SparesZero(s: State, e: Event, i: nat) {
    e.Deliver? && Find(s.clients, e.fd) < |s.clients| ==>
      SparesMessage(s, Find(s.clients, e.fd), e.msg, e.env, i)
  }

  ghost predicate Polite(s: State, e: Event) {
    (forall i :: SparesZero(s, e, i)) && (forall r :: PoliteFor(s, e, r))
  }

  /** What a change of the tables and of one client does to exclusivity. */
  lemma ReplaceClient(s: State, k: nat, g: Globals, c: Client, r: Resource)
    requires ExclusiveFor(s, r) && k < |s.clients|
    ensures ExclusiveFor(State(g, s.clients[k := c]), r) <==>
            && (Records(c, r) || Other(s.clients, k, r) ==> Marked(g, r))
            && !(Records(c, r) && Other(s.clients, k, r))
    ensures Other(s.clients[k := c], k, r) <==> Other(s.clients, k, r)
  {
    var ds := s.clients[k := c];
    assert forall j :: 0 <= j < |ds| && j != k ==> ds[j] == s.clients[j];
    assert ds[k] == c;
    if j :| 0 <= j < |s.clients| && j != k && Records(s.clients[j], r) {
      assert Records(ds[j], r);
    }
  }

  // ---- Acquiring an interface ----

  /** Acquiring takes nothing from any client: a table is cleared only when no client holds the
      interface, and then none has a record on it. */
  lemma AcquireKeepsMarks(s: State, k: nat, i: nat, env: Env, r: Resource)
    requires Coherent(s) && k < |s.clients|
    ensures var a := Acquire(s.g, s.clients[k], i, env);
            && (Records(a.c, r) <==> Records(s.clients[k], r))
            && ((exists j :: 0 <= j < |s.clients| && Records(s.clients[j], r)) ==>
                  (Marked(a.g, r) <==> Marked(s.g, r)))
  {
    if j :| 0 <= j < |s.clients| && Records(s.clients[j], r) {
      assert ClientOk(s.g, s.clients[j]) && ClientOk(s.g, s.clients[k]);
      if !r.Lcore? { assert r.ifindex in s.clients[j].held; }
    }
  }

  lemma AcquireIsExclusive(s: State, k: nat, i: nat, env: Env, r: Resource)
    requires Coherent(s) && k < |s.clients| && ExclusiveFor(s, r)
    ensures var a := Acquire(s.g, s.clients[k], i, env);
            var t := State(a.g, s.clients[k := a.c]);
            ExclusiveFor(t, r) && (Other(t.clients, k, r) <==> Other(s.clients, k, r))
  {
    var a := Acquire(s.g, s.clients[k], i, env);
    AcquireKeepsMarks(s, k, i, env, r);
    ReplaceClient(s, k, a.g, a.c, r);
  }

  lemma {:induction false} AcquireAllIsExclusive(s: State, k: nat, ifs: seq<nat>, env: Env, r: Resource)
    requires Coherent(s) && k < |s.clients| && ExclusiveFor(s, r)
    ensures var x := AcquireAll(s.g, s.clients[k], ifs, env);
            ExclusiveFor(State(x.g, s.clients[k := x.c]), r)
    decreases ifs
  {
    var c := s.clients[k];
    if ifs == [] {
      ReplaceClient(s, k, s.g, c.(registered := true), r);
    } else {
      var a := Acquire(s.g, c, ifs[0], env);
      AcquireIsCoherent(s, k, ifs[0], env);
      AcquireIsExclusive(s, k, ifs[0], env, r);
      if a.obj.Some? {
        var s1 := State(a.g, s.clients[k := a.c]);
        AcquireAllIsExclusive(s1, k, ifs[1..], env, r);
        var x := AcquireAll(a.g, a.c, ifs[1..], env);
        assert s1.clients[k := x.c] == s.clients[k := x.c];
      }
    }
  }

  // ---- Messages ----

  lemma LcoreMessageIsExclusiveIff(s: State, k: nat, m: Message, env: Env, r: Resource)
    requires Sound(s) && k < |s.clients| && ExclusiveFor(s, r) && (m.GetLcore? || m.PutLcore?)
    ensures var x := Handle(s.g, s.clients[k], m, env);
            ExclusiveFor(State(x.g, s.clients[k := x.c]), r) <==> PoliteMessage(s, k, m, env, r)
  {
    var x := Handle(s.g, s.clients[k], m, env);
    ReplaceClient(s, k, x.g, x.c, r);
    assert Records(s.clients[k], r) ==> Marked(s.g, r);
    assert Other(s.clients, k, r) ==> Marked(s.g, r);
  }

  /** Object `o` is the one whose queues the marks of interface `i`, and of no other, are about. */
  lemma MarksOn(s: State, k: nat, i: nat, o: nat, p: nat)
    requires Coherent(s) && Serves(s, k, i, o)
    ensures Live(s.g, i) && s.g.weak[i] == o && s.g.ifaces[o].ifindex == i
    ensures p in s.g.weak && s.g.weak[p] == o ==> p == i
  {
    assert ClientOk(s.g, s.clients[k]);
  }

  lemma GetQueueIsExclusive(s: State, k: nat, i: nat, o: nat, r: Resource)
    requires Coherent(s) && ExclusiveFor(s, r) && Serves(s, k, i, o)
    ensures var x := TakeQueue(s.g, s.clients[k], o, i);
            ExclusiveFor(State(x.g, s.clients[k := x.c]), r)
  {
    var x := TakeQueue(s.g, s.clients[k], o, i);
    ReplaceClient(s, k, x.g, x.c, r);
    assert Other(s.clients, k, r) ==> Marked(s.g, r);
    if r.Queue? { MarksOn(s, k, i, o, r.ifindex); }
  }

  /** A put frees the queue if it is marked, and changes nothing else. */
  lemma PutQueueMarks(s: State, k: nat, i: nat, o: nat, q: nat, r: Resource)
    requires Sound(s) && Serves(s, k, i, o) && q != 0
    ensures var x := ReturnQueue(s.g, s.clients[k], o, i, q);
            && (Marked(x.g, r) <==> Marked(s.g, r) && r != Queue(i, q))
            && (Records(x.c, r) <==> Records(s.clients[k], r) && !(r == Queue(i, q) && Marked(s.g, r)))
  {
    MarksOn(s, k, i, o, i);
    if r.Queue? { MarksOn(s, k, i, o, r.ifindex); }
    assert q in s.g.ifaces[o].taken ==> q < s.g.ifaces[o].count;
  }

  lemma PutZeroMarks(s: State, k: nat, i: nat, o: nat, r: Resource)
    requires Coherent(s) && Serves(s, k, i, o) && ExclusiveFor(s, r)
    ensures var x := ReturnQueue(s.g, s.clients[k], o, i, 0);
            (Marked(x.g, r) <==> Marked(s.g, r)) && (Records(x.c, r) <==> Records(s.clients[k], r))
  {
    if r.Queue? { MarksOn(s, k, i, o, r.ifindex); }
  }

  lemma PutQueueIsExclusiveIff(s: State, k: nat, i: nat, o: nat, q: nat, env: Env, r: Resource)
    requires Sound(s) && ExclusiveFor(s, r) && Serves(s, k, i, o)
    ensures var x := ReturnQueue(s.g, s.clients[k], o, i, q);
            ExclusiveFor(State(x.g, s.clients[k := x.c]), r) <==>
            PoliteMessage(s, k, PutQueue(i, q), env, r)
  {
    var x := ReturnQueue(s.g, s.clients[k], o, i, q);
    ReplaceClient(s, k, x.g, x.c, r);
    assert Records(s.clients[k], r) ==> Marked(s.g, r);
    assert Other(s.clients, k, r) ==> Marked(s.g, r);
    if q == 0 { PutZeroMarks(s, k, i, o, r); } else { PutQueueMarks(s, k, i, o, q, r); }
  }

  lemma AddFlowIsExclusive(s: State, k: nat, i: nat, env: Env, r: Resource)
    requires k < |s.clients| && ExclusiveFor(s, r)
    ensures var x := InsertFlow(s.g, s.clients[k], i, env);
            ExclusiveFor(State(x.g, s.clients[k := x.c]), r)
  {
    var x := InsertFlow(s.g, s.clients[k], i, env);
    ReplaceClient(s, k, x.g, x.c, r);
    assert Other(s.clients, k, r) ==> Marked(s.g, r);
    if r.Flow? && (r.ifindex, r.loc) in s.g.rules {
      assert (r.ifindex, r.loc).1 in Locations(s.g.rules, r.ifindex);
    }
  }

  lemma DelFlowIsExclusiveIff(s: State, k: nat, i: nat, o: nat, l: nat, env: Env, r: Resource)
    requires ExclusiveFor(s, r) && Serves(s, k, i, o)
    ensures var x := DeleteFlow(s.g, s.clients[k], i, l, env);
            ExclusiveFor(State(x.g, s.clients[k := x.c]), r) <==>
            PoliteMessage(s, k, DelFlow(i, l), env, r)
  {
    var x := DeleteFlow(s.g, s.clients[k], i, l, env);
    ReplaceClient(s, k, x.g, x.c, r);
    assert Records(s.clients[k], r) ==> Marked(s.g, r);
    assert Other(s.clients, k, r) ==> Marked(s.g, r);
  }

  lemma FilterIsExclusive(s: State, k: nat, o: nat, port: nat, add: bool, r: Resource)
    requires k < |s.clients| && ExclusiveFor(s, r) && o in s.g.ifaces
    ensures var x := UpdateFilter(s.g, s.clients[k], o, port, add);
            ExclusiveFor(State(x.g, s.clients[k := x.c]), r)
  {
    var x := UpdateFilter(s.g, s.clients[k], o, port, add);
    ReplaceClient(s, k, x.g, x.c, r);
    assert Marked(x.g, r) <==> Marked(s.g, r);
  }

  lemma OnInterfaceIsExclusiveIff(s: State, k: nat, i: nat, o: nat, m: Message, env: Env, r: Resource)
    requires Sound(s) && ExclusiveFor(s, r) && Serves(s, k, i, o) && Names(m, i)
    ensures var x := OnInterface(s.g, s.clients[k], o, m, env);
            ExclusiveFor(State(x.g, s.clients[k := x.c]), r) <==> PoliteMessage(s, k, m, env, r)
  {
    match m
    case GetQueue(_) => GetQueueIsExclusive(s, k, i, o, r);
    case PutQueue(_, q) => PutQueueIsExclusiveIff(s, k, i, o, q, env, r);
    case AddFlow(_) => AddFlowIsExclusive(s, k, i, env, r);
    case DelFlow(_, l) => DelFlowIsExclusiveIff(s, k, i, o, l, env, r);
    case UdpFilter(_, port, add) => FilterIsExclusive(s, k, o, port, add, r);
    case XskMapFd(_) => assert s.clients[k := s.clients[k]] == s.clients;
  }

  /** Acquiring first does not change what a message releases. */
  lemma ReleasesAfterAcquire(g: Globals, c: Client, i: nat, m: Message, env: Env, r: Resource)
    requires Names(m, i)
    ensures var a := Acquire(g, c, i, env);
            && (a.obj.None? ==> !Releases(g, c, m, env, r))
            && (a.obj.Some? ==> (Releases(a.g, a.c, m, env, r) <==> Releases(g, c, m, env, r)))
  {
  }

  lemma HandleOnIsExclusiveIff(s: State, k: nat, i: nat, m: Message, env: Env, r: Resource)
    requires Sound(s) && ExclusiveFor(s, r) && k < |s.clients| && Names(m, i)
    ensures var x := HandleOn(s.g, s.clients[k], i, m, env);
            ExclusiveFor(State(x.g, s.clients[k := x.c]), r) <==> PoliteMessage(s, k, m, env, r)
  {
    var a := Acquire(s.g, s.clients[k], i, env);
    AcquireIsCoherent(s, k, i, env);
    AcquireLeaksNothing(s, k, i, env);
    AcquireIsExclusive(s, k, i, env, r);
    ReleasesAfterAcquire(s.g, s.clients[k], i, m, env, r);
    if a.obj.Some? {
      var s1 := State(a.g, s.clients[k := a.c]);
      OnInterfaceIsExclusiveIff(s1, k, i, a.obj.value, m, env, r);
      var x := OnInterface(a.g, a.c, a.obj.value, m, env);
      assert s1.clients[k := x.c] == s.clients[k := x.c];
    }
  }

  lemma HandleIsExclusiveIff(s: State, k: nat, m: Message, env: Env, r: Resource)
    requires Sound(s) && ExclusiveFor(s, r) && k < |s.clients|
    ensures var x := Handle(s.g, s.clients[k], m, env);
            ExclusiveFor(State(x.g, s.clients[k := x.c]), r) <==> PoliteMessage(s, k, m, env, r)
  {
    match m
    case Register(ifs) => AcquireAllIsExclusive(s, k, ifs, env, r);
    case GetLcore(_) => LcoreMessageIsExclusiveIff(s, k, m, env, r);
    case PutLcore(_) => LcoreMessageIsExclusiveIff(s, k, m, env, r);
    case Ignored => assert s.clients[k := s.clients[k]] == s.clients;
    case XskMapFd(i) => HandleOnIsExclusiveIff(s, k, i, m, env, r);
    case UdpFilter(i, _, _) => HandleOnIsExclusiveIff(s, k, i, m, env, r);
    case GetQueue(i) => HandleOnIsExclusiveIff(s, k, i, m, env, r);
    case PutQueue(i, _) => HandleOnIsExclusiveIff(s, k, i, m, env, r);
    case AddFlow(i) => HandleOnIsExclusiveIff(s, k, i, m, env, r);
    case DelFlow(i, _) => HandleOnIsExclusiveIff(s, k, i, m, env, r);
  }

  // ---- Disconnection ----

  /** A leaving client takes nothing from a client that stays. */
  lemma LeaveKeepsMark(s: State, k: nat, j: nat, env: Env, r: Resource)
    requires Coherent(s) && k < |s.clients| && j < |s.clients| && j != k
    requires Records(s.clients[j], r) && !Records(s.clients[k], r) && Marked(s.g, r)
    ensures Marked(Leave(s.g, s.clients[k], env), r)
  {
    assert ClientOk(s.g, s.clients[k]) && ClientOk(s.g, s.clients[j]);
    if !r.Lcore? && r.ifindex in s.clients[k].held {
      LastHolderIff(s, k, r.ifindex);
    }
  }

  lemma LeaveIsExclusive(s: State, k: nat, env: Env, r: Resource)
    requires Coherent(s) && ExclusiveFor(s, r) && k < |s.clients|
    ensures ExclusiveFor(State(Leave(s.g, s.clients[k], env), Without(s.clients, k)), r)
  {
    var rest := Without(s.clients, k);
    assert forall j :: 0 <= j < |rest| ==> rest[j] == s.clients[if j < k then j else j + 1];
    forall j | 0 <= j < |rest| && Records(rest[j], r) ensures Marked(Leave(s.g, s.clients[k], env), r) {
      LeaveKeepsMark(s, k, if j < k then j else j + 1, env, r);
    }
  }

  // ---- Steps and runs, one resource at a time ----

  /** One step keeps a resource exclusive if and only if it is polite about that resource. */
  lemma StepIsExclusiveForIff(s: State, e: Event, r: Resource)
    requires Sound(s) && ExclusiveFor(s, r)
    ensures ExclusiveFor(Step(s, e), r) <==> PoliteFor(s, e, r)
  {
    match e
    case Accept(fd) =>
      var t := Step(s, e);
      assert t.clients[|s.clients|] == NewClient(fd);
      assert forall j :: 0 <= j < |s.clients| ==> t.clients[j] == s.clients[j];
    case Deliver(fd, m, env) =>
      if Find(s.clients, fd) < |s.clients| {
        HandleIsExclusiveIff(s, Find(s.clients, fd), m, env, r);
      }
    case Close(fd, env) =>
      if Find(s.clients, fd) < |s.clients| {
        LeaveIsExclusive(s, Find(s.clients, fd), env, r);
      }
  }

  /** The resource has at most one owner after every prefix of the run. */
  ghost predicate AlwaysExclusiveFor(s: State, es: seq<Event>, r: Resource) {
    ExclusiveFor(Exec(s, es), r) && (es == [] || AlwaysExclusiveFor(s, es[..|es| - 1], r))
  }

  /** Every event of the run is polite about the resource when it happens. */
  predicate AllPoliteFor(s: State, es: seq<Event>, r: Resource) {
    es == [] || (AllPoliteFor(s, es[..|es| - 1], r) && PoliteFor(Exec(s, es[..|es| - 1]), es[|es| - 1], r))
  }

  /** A resource is exclusive throughout a run if and only if every step is polite about it,
      whatever happens to all other resources. */
  lemma {:induction false} AlwaysExclusiveForIff(rules: set<Rule>, es: seq<Event>, r: Resource)
    ensures AlwaysExclusiveFor(Init(rules), es, r) <==> AllPoliteFor(Init(rules), es, r)
  {
    if es != [] {
      var init := es[..|es| - 1];
      AlwaysExclusiveForIff(rules, init, r);
      RunsAreSound(rules, init);
      if ExclusiveFor(Exec(Init(rules), init), r) {
        StepIsExclusiveForIff(Exec(Init(rules), init), es[|es| - 1], r);
      }
    }
  }

  /** Every message of the run that releases the resource comes from a client that records it. */
  predicate AllOwnReleases(s: State, es: seq<Event>, r: Resource) {
    es == [] ||
    var pre, e := Exec(s, es[..|es| - 1]), es[|es| - 1];
    && AllOwnReleases(s, es[..|es| - 1], r)
    && (e.Deliver? && Find(pre.clients, e.fd) < |pre.clients| ==>
          var c := pre.clients[Find(pre.clients, e.fd)];
          Releases(pre.g, c, e.msg, e.env, r) ==> Records(c, r))
  }

  /** If the resource is released only by those who hold it, it stays exclusive. */
  lemma {:induction false} OwnReleasesKeepExclusive(rules: set<Rule>, es: seq<Event>, r: Resource)
    requires AllOwnReleases(Init(rules), es, r)
    ensures AllPoliteFor(Init(rules), es, r) && AlwaysExclusiveFor(Init(rules), es, r)
  {
    if es != [] {
      OwnReleasesKeepExclusive(rules, es[..|es| - 1], r);
    }
    AlwaysExclusiveForIff(rules, es, r);
  }

  // ---- Queue 0 ----

  /** In every run: no client ever records queue 0. */
  lemma {:induction false} ZeroIsNeverRecorded(rules: set<Rule>, es: seq<Event>, i: nat)
    ensures ExclusiveFor(Exec(Init(rules), es), Queue(i, 0))
  {
    if es != [] {
      var init := es[..|es| - 1];
      ZeroIsNeverRecorded(rules, init, i);
      RunsAreSound(rules, init);
      StepIsExclusiveForIff(Exec(Init(rules), init), es[|es| - 1], Queue(i, 0));
    }
  }

  lemma {:induction false} AcquireAllReserves(s: State, k: nat, ifs: seq<nat>, env: Env, i: nat)
    requires Coherent(s) && k < |s.clients| && Reserved(s.g, i)
    ensures Reserved(AcquireAll(s.g, s.clients[k], ifs, env).g, i)
    decreases ifs
  {
    if ifs != [] {
      var a := Acquire(s.g, s.clients[k], ifs[0], env);
      AcquireIsCoherent(s, k, ifs[0], env);
      AcquireReserves(s, k, ifs[0], env, i);
      if a.obj.Some? { AcquireAllReserves(State(a.g, s.clients[k := a.c]), k, ifs[1..], env, i); }
    }
  }

  lemma AcquireReserves(s: State, k: nat, p: nat, env: Env, i: nat)
    requires Coherent(s) && k < |s.clients| && Reserved(s.g, i)
    ensures Reserved(Acquire(s.g, s.clients[k], p, env).g, i)
  {
  }

  lemma OnInterfaceReservesIff(s: State, k: nat, p: nat, o: nat, m: Message, env: Env, i: nat)
    requires Sound(s) && Reserved(s.g, i) && Serves(s, k, p, o) && Names(m, p)
    ensures Reserved(OnInterface(s.g, s.clients[k], o, m, env).g, i) <==> SparesMessage(s, k, m, env, i)
  {
    MarksOn(s, k, p, o, i);
  }

  lemma HandleOnReservesIff(s: State, k: nat, p: nat, m: Message, env: Env, i: nat)
    requires Sound(s) && Reserved(s.g, i) && k < |s.clients| && Names(m, p)
    ensures Reserved(HandleOn(s.g, s.clients[k], p, m, env).g, i) <==> SparesMessage(s, k, m, env, i)
  {
    var a := Acquire(s.g, s.clients[k], p, env);
    AcquireIsCoherent(s, k, p, env);
    AcquireLeaksNothing(s, k, p, env);
    AcquireReserves(s, k, p, env, i);
    if a.obj.Some? {
      OnInterfaceReservesIff(State(a.g, s.clients[k := a.c]), k, p, a.obj.value, m, env, i);
    }
  }

  lemma HandleReservesIff(s: State, k: nat, m: Message, env: Env, i: nat)
    requires Sound(s) && Reserved(s.g, i) && k < |s.clients|
    ensures Reserved(Handle(s.g, s.clients[k], m, env).g, i) <==> SparesMessage(s, k, m, env, i)
  {
    match m
    case Register(ifs) => AcquireAllReserves(s, k, ifs, env, i);
    case GetLcore(_) =>
    case PutLcore(_) =>
    case Ignored =>
    case XskMapFd(p) => HandleOnReservesIff(s, k, p, m, env, i);
    case UdpFilter(p, _, _) => HandleOnReservesIff(s, k, p, m, env, i);
    case GetQueue(p) => HandleOnReservesIff(s, k, p, m, env, i);
    case PutQueue(p, _) => HandleOnReservesIff(s, k, p, m, env, i);
    case AddFlow(p) => HandleOnReservesIff(s, k, p, m, env, i);
    case DelFlow(p, _) => HandleOnReservesIff(s, k, p, m, env, i);
  }

  /** One step keeps queue 0 of an interface reserved if and only if it does not release it. */
  lemma StepReservesIff(s: State, e: Event, i: nat)
    requires Sound(s) && Reserved(s.g, i) && ExclusiveFor(s, Queue(i, 0))
    ensures Reserved(Step(s, e).g, i) <==> SparesZero(s, e, i)
  {
    match e
    case Accept(fd) =>
    case Deliver(fd, m, env) =>
      if Find(s.clients, fd) < |s.clients| {
        HandleReservesIff(s, Find(s.clients, fd), m, env, i);
      }
    case Close(fd, env) =>
      var k := Find(s.clients, fd);
      if k < |s.clients| { assert !Records(s.clients[k], Queue(i, 0)); }
  }

  ghost predicate AlwaysReserved(s: State, es: seq<Event>, i: nat) {
    Reserved(Exec(s, es).g, i) && (es == [] || AlwaysReserved(s, es[..|es| - 1], i))
  }

  predicate AllSpareZero(s: State, es: seq<Event>, i: nat) {
    es == [] || (AllSpareZero(s, es[..|es| - 1], i) && SparesZero(Exec(s, es[..|es| - 1]), es[|es| - 1], i))
  }

  lemma {:induction false} AlwaysReservedIff(rules: set<Rule>, es: seq<Event>, i: nat)
    ensures AlwaysReserved(Init(rules), es, i) <==> AllSpareZero(Init(rules), es, i)
  {
    if es != [] {
      var init := es[..|es| - 1];
      AlwaysReservedIff(rules, init, i);
      RunsAreSound(rules, init);
      ZeroIsNeverRecorded(rules, init, i);
      if Reserved(Exec(Init(rules), init).g, i) {
        StepReservesIff(Exec(Init(rules), init), es[|es| - 1], i);
      }
    }
  }

  // ---- All resources together ----

  lemma StepIsExclusiveIff(s: State, e: Event)
    requires Sound(s) && Exclusive(s)
    ensures Exclusive(Step(s, e)) <==> Polite(s, e)
  {
    forall i ensures Reserved(Step(s, e).g, i) <==> SparesZero(s, e, i) { StepReservesIff(s, e, i); }
    forall r ensures ExclusiveFor(Step(s, e), r) <==> PoliteFor(s, e, r) { StepIsExclusiveForIff(s, e, r); }
  }

  ghost predicate AlwaysExclusive(s: State, es: seq<Event>) {
    Exclusive(Exec(s, es)) && (es == [] || AlwaysExclusive(s, es[..|es| - 1]))
  }

  ghost predicate AllPolite(s: State, es: seq<Event>) {
    es == [] || (AllPolite(s, es[..|es| - 1]) && Polite(Exec(s, es[..|es| - 1]), es[|es| - 1]))
  }

  /** Ownership of everything is exclusive throughout a run if and only if every step is polite. */
  lemma {:induction false} AlwaysExclusiveIffPolite(rules: set<Rule>, es: seq<Event>)
    ensures AlwaysExclusive(Init(rules), es) <==> AllPolite(Init(rules), es)
  {
    if es != [] {
      var init := es[..|es| - 1];
      AlwaysExclusiveIffPolite(rules, init);
      RunsAreSound(rules, init);
      if Exclusive(Exec(Init(rules), init)) {
        StepIsExclusiveIff(Exec(Init(rules), init), es[|es| - 1]);
      }
    }
  }

  // ---- What an impolite step does ----

  /** Releasing and re-requesting an lcore that another client holds gives it to both. */
  lemma ImpolitePutSharesLcore(s: State, j: nat, k: nat, id: nat, env: Env)
    requires Coherent(s) && LcoresOwned(s) && ExclusiveFor(s, Lcore(id))
    requires j < |s.clients| && k < |s.clients| && j != k
    requires s.clients[k].registered && id in s.clients[j].lcores
    ensures var r := Handle(s.g, s.clients[k], PutLcore(id), env);
            var t := Handle(r.g, r.c, GetLcore(id), env);
            r.reply == Code(0) && t.reply == Code(0) && id in t.c.lcores && id in s.clients[j].lcores
  {
    assert Records(s.clients[j], Lcore(id));
  }

  /** A registered client is given an lcore exactly if it is one of 1024 and free. */
  lemma LcoreGivenIff(g: Globals, c: Client, id: nat, env: Env)
    requires c.registered
    ensures var r := Handle(g, c, GetLcore(id), env);
            && (r.reply == Code(0) <==> id < 1024 && id !in g.lcores)
            && (r.reply == Code(0) ==> id in r.g.lcores && id in r.c.lcores)
            && (r.reply != Code(0) ==> r.reply == Code(-1) && r.g == g && r.c == c)
  {
  }

  /** Putting a queue that another client holds succeeds and frees it, while its holder still has it
      on record. */
  lemma ImpolitePutFreesQueue(s: State, j: nat, k: nat, i: nat, o: nat, q: nat, env: Env)
    requires Sound(s) && ExclusiveFor(s, Queue(i, q)) && Serves(s, k, i, o)
    requires j < |s.clients| && j != k && q in Recorded(s.clients[j].queues, i)
    ensures var r := Handle(s.g, s.clients[k], PutQueue(i, q), env);
            && r.reply == Code(0) && o in r.g.ifaces && r.g.ifaces[o].taken == s.g.ifaces[o].taken - {q}
            && Taken(s.g, i, q) && !Taken(r.g, i, q) && q in Recorded(s.clients[k := r.c][j].queues, i)
  {
    MarksOn(s, k, i, o, i);
    assert Records(s.clients[j], Queue(i, q));
    assert Acquire(s.g, s.clients[k], i, env).obj == Some(o);
  }

  /** The same for a flow rule, if the kernel deletes it. */
  lemma ImpoliteDeleteDropsFlow(s: State, j: nat, k: nat, i: nat, o: nat, l: nat, env: Env)
    requires Sound(s) && ExclusiveFor(s, Flow(i, l)) && Serves(s, k, i, o) && (i, l) !in env.delFails
    requires j < |s.clients| && j != k && l in Recorded(s.clients[j].flows, i)
    ensures var r := Handle(s.g, s.clients[k], DelFlow(i, l), env);
            && r.reply == Code(0) && r.g.rules == s.g.rules - {(i, l)} && (i, l) in s.g.rules
            && l in Recorded(s.clients[k := r.c][j].flows, i)
  {
    assert Records(s.clients[j], Flow(i, l));
    assert Acquire(s.g, s.clients[k], i, env).obj == Some(o);
  }

  /** Releasing queue 0, which nobody holds, makes the next request yield it, unrecorded. */
  lemma ImpolitePutLosesQueueZero(s: State, k: nat, i: nat, o: nat)
    requires Coherent(s) && QueuesOwned(s) && Reserved(s.g, i) && Serves(s, k, i, o)
    ensures var r := ReturnQueue(s.g, s.clients[k], o, i, 0);
            var t := TakeQueue(r.g, r.c, o, i);
            && r.reply == Code(0) && t.reply == Code(0)
            && t.g.ifaces[o].taken == s.g.ifaces[o].taken && t.c.queues == r.c.queues
  {
    MarksOn(s, k, i, o, i);
    assert 0 in s.g.ifaces[o].taken;
  }

  function ZeroRun(env: Env): seq<Event> {
    [Accept(1), Deliver(1, XskMapFd(7), env), Deliver(1, PutQueue(7, 0), env), Deliver(1, GetQueue(7), env)]
  }

  /** A lone client, whose second message opens the interface. */
  lemma ZeroRunOpens(env: Env)
    requires 7 in env.channels
    ensures var s := Exec(Init({}), ZeroRun(env)[..2]);
            && |s.clients| == 1 && s.clients[0].fd == 1 && s.clients[0].queues == map[]
            && s.clients[0].held == map[7 := 0] && 0 in s.g.ifaces
            && s.g.ifaces[0].taken == {0} && s.g.ifaces[0].count > 0
  {
    var es := ZeroRun(env);
    assert es[..0] == [];
    ExecNext(Init({}), es, 0);
    ExecNext(Init({}), es, 1);
    assert Exec(Init({}), es[..1]) == State(Init({}).g, [NewClient(1)]);
    assert Find([NewClient(1)], 1) == 0;
  }

  lemma LoneMessage(s: State, i: nat, m: Message, env: Env)
    requires |s.clients| == 1 && i in s.clients[0].held && s.clients[0].held[i] in s.g.ifaces && Names(m, i)
    ensures var c := s.clients[0];
            var x := OnInterface(s.g, c, c.held[i], m, env);
            var e := Deliver(c.fd, m, env);
            Step(s, e) == State(x.g, [x.c]) && ReplyTo(s, e) == x.reply
  {
    var c := s.clients[0];
    assert Find(s.clients, c.fd) == 0;
    assert Acquire(s.g, c, i, env) == Acquired(s.g, c, Some(c.held[i]));
    assert Handle(s.g, c, m, env) == HandleOn(s.g, c, i, m, env);
    var x := OnInterface(s.g, c, c.held[i], m, env);
    assert s.clients[0 := x.c] == [x.c];
  }

  /** The state before the last event, in which the lone client has given back queue 0. */
  lemma ZeroRunPuts(env: Env)
    requires 7 in env.channels
    ensures var s := Exec(Init({}), ZeroRun(env)[..3]);
            && |s.clients| == 1 && s.clients[0].fd == 1 && Recorded(s.clients[0].queues, 7) == {}
            && s.clients[0].held == map[7 := 0] && 0 in s.g.ifaces
            && s.g.ifaces[0].taken == {} && s.g.ifaces[0].count > 0
  {
    ZeroRunOpens(env);
    ExecNext(Init({}), ZeroRun(env), 2);
    LoneMessage(Exec(Init({}), ZeroRun(env)[..2]), 7, PutQueue(7, 0), env);
  }

  lemma LoneGetsZero(s: State, i: nat, e: Event)
    requires |s.clients| == 1 && i in s.clients[0].held && s.clients[0].held[i] in s.g.ifaces
    requires s.g.ifaces[s.clients[0].held[i]].taken == {} && s.g.ifaces[s.clients[0].held[i]].count > 0
    requires Recorded(s.clients[0].queues, i) == {}
    requires e.Deliver? && e.fd == s.clients[0].fd && e.msg == GetQueue(i)
    ensures ReplyTo(s, e) == Code(0)
    ensures |Step(s, e).clients| == 1 && Recorded(Step(s, e).clients[0].queues, i) == {}
  {
    LoneMessage(s, i, GetQueue(i), e.env);
  }

  /** A run after which a client has been given queue 0 and nobody records it. */
  lemma QueueZeroRun(env: Env)
    requires 7 in env.channels
    ensures var es := ZeroRun(env);
            var s := Exec(Init({}), es);
            && ReplyTo(Exec(Init({}), es[..3]), es[3]) == Code(0)
            && |s.clients| == 1 && Recorded(s.clients[0].queues, 7) == {}
  {
    var es := ZeroRun(env);
    ZeroRunPuts(env);
    LoneGetsZero(Exec(Init({}), es[..3]), 7, es[3]);
    ExecNext(Init({}), es, 3);
    assert es[..4] == es;
  }

  /** A run of two clients after which both record lcore 5. */
  lemma ImpoliteRun(env: Env)
    ensures var es := [Accept(1), Accept(2),
                       Deliver(1, Register([]), env), Deliver(2, Register([]), env),
                       Deliver(1, GetLcore(5), env),
                       Deliver(2, PutLcore(5), env), Deliver(2, GetLcore(5), env)];
            var cs := Exec(Init({}), es).clients;
            |cs| == 2 && 5 in cs[0].lcores && 5 in cs[1].lcores
  {
    var e0 := [Accept(1)];
    var e1 := e0 + [Accept(2)];
    var e2 := e1 + [Deliver(1, Register([]), env)];
    var e3 := e2 + [Deliver(2, Register([]), env)];
    var e4 := e3 + [Deliver(1, GetLcore(5), env)];
    var e5 := e4 + [Deliver(2, PutLcore(5), env)];
    var e6 := e5 + [Deliver(2, GetLcore(5), env)];
    var c1, c2 := NewClient(1).(registered := true), NewClient(2).(registered := true);
    var g := Init({}).g;
    assert e0[..0] == [];
    assert Exec(Init({}), e0) == State(g, [NewClient(1)]);
    assert e1[..1] == e0;
    assert Exec(Init({}), e1) == State(g, [NewClient(1), NewClient(2)]);
    assert e2[..2] == e1;
    assert Exec(Init({}), e2) == State(g, [c1, NewClient(2)]);
    assert e3[..3] == e2;
    assert Find([c1, NewClient(2)], 2) == 1;
    assert Exec(Init({}), e3) == State(g, [c1, c2]);
    assert e4[..4] == e3 && e5[..5] == e4 && e6[..6] == e5;
    var s4 := Step(State(g, [c1, c2]), Deliver(1, GetLcore(5), env));
    assert Exec(Init({}), e4) == s4;
    assert 5 in s4.g.lcores && |s4.clients| == 2 && 5 in s4.clients[0].lcores;
    assert s4.clients[0].fd == 1 && s4.clients[1] == c2;
    var s5 := Step(s4, Deliver(2, PutLcore(5), env));
    assert Find(s4.clients, 2) == 1 && Exec(Init({}), e5) == s5;
    assert 5 !in s5.g.lcores && |s5.clients| == 2 && s5.clients[0] == s4.clients[0];
    assert s5.clients[1].fd == 2 && s5.clients[1].registered;
    assert Find(s5.clients, 2) == 1;
    assert Exec(Init({}), e6) == Step(s5, Deliver(2, GetLcore(5), env));
    assert e6 == [Accept(1), Accept(2),
                  Deliver(1, Register([]), env), Deliver(2, Register([]), env),
                  Deliver(1, GetLcore(5), env),
                  Deliver(2, PutLcore(5), env), Deliver(2, GetLcore(5), env)];
  }
}
