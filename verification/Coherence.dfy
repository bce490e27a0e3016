/** In every run, whatever the clients send and the kernel answers: interface pointers never
    dangle, there is one live object per interface, everyone who holds the interface holds that
    object, and its use count is the number of holders. */
module Coherence {
  import opened ManagerModel

  /** How many clients hold object `o` as interface `i`. */
  function Holders(cs: seq<Client>, i: nat, o: nat): nat {
    if cs == [] then 0
    else Holders(cs[..|cs| - 1], i, o) + (if Holds(cs[|cs| - 1], i, o) then 1 else 0)
  }

  /** The client's pointers lead to live objects of the right interface, and it records queues and
      flows only of interfaces it holds, so that its destructor never builds an interface. */
  ghost predicate ClientOk(g: Globals, c: Client) {
    && (forall i :: i in c.held ==> c.held[i] in g.ifaces && g.ifaces[c.held[i]].ifindex == i)
    && c.queues.Keys <= c.held.Keys
    && c.flows.Keys <= c.held.Keys
  }

  /** Every live object is the one the global map leads to, and object names are not reused. */
  ghost predicate GlobalsOk(g: Globals) {
    && (forall o :: o in g.ifaces ==>
          var i := g.ifaces[o].ifindex; o < g.nextId && i in g.weak && g.weak[i] == o)
    && (forall i :: i in g.weak ==>
          g.weak[i] < g.nextId && (g.weak[i] in g.ifaces ==> g.ifaces[g.weak[i]].ifindex == i))
  }

  ghost predicate UsesCounted(g: Globals, cs: seq<Client>) {
    forall o :: o in g.ifaces ==> g.ifaces[o].uses == Holders(cs, g.ifaces[o].ifindex, o) > 0
  }

  ghost predicate Coherent(s: State) {
    && GlobalsOk(s.g)
    && (forall k :: 0 <= k < |s.clients| ==> ClientOk(s.g, s.clients[k]))
    && UsesCounted(s.g, s.clients)
  }

  // ---- Counting holders ----

  lemma {:induction false} HoldersUpdate(cs: seq<Client>, k: nat, c: Client, i: nat, o: nat)
    requires k < |cs|
    ensures Holders(cs[k := c], i, o)
         == Holders(cs, i, o) - (if Holds(cs[k], i, o) then 1 else 0) + (if Holds(c, i, o) then 1 else 0)
  {
    var n := |cs| - 1;
    if k < n {
      assert cs[k := c][..n] == cs[..n][k := c];
      HoldersUpdate(cs[..n], k, c, i, o);
    } else {
      assert cs[k := c][..n] == cs[..n];
    }
  }

  lemma {:induction false} HoldersWithout(cs: seq<Client>, k: nat, i: nat, o: nat)
    requires k < |cs|
    ensures Holders(Without(cs, k), i, o) == Holders(cs, i, o) - (if Holds(cs[k], i, o) then 1 else 0)
  {
    var n := |cs| - 1;
    if k < n {
      assert Without(cs, k)[..n - 1] == Without(cs[..n], k);
      HoldersWithout(cs[..n], k, i, o);
    } else {
      assert Without(cs, k) == cs[..n];
    }
  }

  lemma {:induction false} HoldersPositive(cs: seq<Client>, k: nat, i: nat, o: nat)
    requires k < |cs| && Holds(cs[k], i, o)
    ensures Holders(cs, i, o) > 0
  {
    if k < |cs| - 1 {
      HoldersPositive(cs[..|cs| - 1], k, i, o);
    }
  }

  lemma {:induction false} NoHolders(cs: seq<Client>, i: nat, o: nat)
    requires forall k :: 0 <= k < |cs| ==> !Holds(cs[k], i, o)
    ensures Holders(cs, i, o) == 0
  {
    if cs != [] {
      NoHolders(cs[..|cs| - 1], i, o);
    }
  }

  lemma {:induction false} SomeHolder(cs: seq<Client>, i: nat, o: nat) returns (k: nat)
    requires Holders(cs, i, o) > 0
    ensures k < |cs| && Holds(cs[k], i, o)
  {
    k := |cs| - 1;
    if !Holds(cs[k], i, o) {
      k := SomeHolder(cs[..k], i, o);
    }
  }

  // ---- Acquiring an interface ----

  lemma AcquireCounts(s: State, k: nat, i: nat, env: Env)
    requires Coherent(s) && k < |s.clients|
    ensures var a := Acquire(s.g, s.clients[k], i, env);
            UsesCounted(a.g, s.clients[k := a.c])
  {
    var c := s.clients[k];
    var a := Acquire(s.g, c, i, env);
    forall o | o in a.g.ifaces
      ensures a.g.ifaces[o].uses == Holders(s.clients[k := a.c], a.g.ifaces[o].ifindex, o) > 0
    {
      HoldersUpdate(s.clients, k, a.c, a.g.ifaces[o].ifindex, o);
      if o !in s.g.ifaces {
        forall j | 0 <= j < |s.clients| ensures !Holds(s.clients[j], i, o) {
          assert ClientOk(s.g, s.clients[j]);
        }
        NoHolders(s.clients, i, o);
      }
    }
  }

  lemma AcquireKeepsGlobals(g: Globals, c: Client, i: nat, env: Env)
    requires GlobalsOk(g) && ClientOk(g, c)
    ensures GlobalsOk(Acquire(g, c, i, env).g)
  {
  }

  lemma AcquireKeepsClient(g: Globals, c: Client, d: Client, i: nat, env: Env)
    requires GlobalsOk(g) && ClientOk(g, c) && ClientOk(g, d)
    ensures ClientOk(Acquire(g, c, i, env).g, d) && ClientOk(Acquire(g, c, i, env).g, Acquire(g, c, i, env).c)
  {
  }

  lemma AcquireIsCoherent(s: State, k: nat, i: nat, env: Env)
    requires Coherent(s) && k < |s.clients|
    ensures var a := Acquire(s.g, s.clients[k], i, env);
            && Coherent(State(a.g, s.clients[k := a.c]))
            && (a.obj.Some? ==> a.obj.value in a.g.ifaces && i in a.c.held && a.c.held[i] == a.obj.value)
  {
    var c := s.clients[k];
    var a := Acquire(s.g, c, i, env);
    AcquireCounts(s, k, i, env);
    AcquireKeepsGlobals(s.g, c, i, env);
    var cs := s.clients[k := a.c];
    forall j | 0 <= j < |cs| ensures ClientOk(a.g, cs[j]) {
      AcquireKeepsClient(s.g, c, s.clients[j], i, env);
    }
    assert ClientOk(s.g, c);
  }

  lemma {:induction false} AcquireAllIsCoherent(s: State, k: nat, ifs: seq<nat>, env: Env)
    requires Coherent(s) && k < |s.clients|
    ensures var r := AcquireAll(s.g, s.clients[k], ifs, env);
            Coherent(State(r.g, s.clients[k := r.c]))
    decreases ifs
  {
    var c := s.clients[k];
    if ifs == [] {
      SameShapeIsCoherent(s, State(s.g, s.clients[k := c.(registered := true)]), k);
    } else {
      var a := Acquire(s.g, c, ifs[0], env);
      AcquireIsCoherent(s, k, ifs[0], env);
      if a.obj.Some? {
        var s1 := State(a.g, s.clients[k := a.c]);
        AcquireAllIsCoherent(s1, k, ifs[1..], env);
        var r := AcquireAll(a.g, a.c, ifs[1..], env);
        assert s1.clients[k := r.c] == s.clients[k := r.c];
      }
    }
  }

  /** Changing what interfaces contain and what one client records, but no pointers. */
  lemma SameShapeIsCoherent(s: State, t: State, k: nat)
    requires Coherent(s) && k < |s.clients| && |t.clients| == |s.clients|
    requires t.clients == s.clients[k := t.clients[k]]
    requires t.clients[k].held == s.clients[k].held
    requires t.clients[k].queues.Keys <= t.clients[k].held.Keys
    requires t.clients[k].flows.Keys <= t.clients[k].held.Keys
    requires t.g.ifaces.Keys == s.g.ifaces.Keys && t.g.weak == s.g.weak && t.g.nextId == s.g.nextId
    requires forall o :: o in s.g.ifaces ==>
               t.g.ifaces[o].ifindex == s.g.ifaces[o].ifindex && t.g.ifaces[o].uses == s.g.ifaces[o].uses
    ensures Coherent(t)
  {
    forall j | 0 <= j < |t.clients| ensures ClientOk(t.g, t.clients[j]) {
      assert ClientOk(s.g, s.clients[j]);
    }
    forall o | o in t.g.ifaces ensures t.g.ifaces[o].uses == Holders(t.clients, t.g.ifaces[o].ifindex, o) > 0 {
      HoldersUpdate(s.clients, k, t.clients[k], t.g.ifaces[o].ifindex, o);
    }
  }

  // ---- Steps ----

  lemma HandleIsCoherent(s: State, k: nat, m: Message, env: Env)
    requires Coherent(s) && k < |s.clients|
    ensures var r := Handle(s.g, s.clients[k], m, env);
            Coherent(State(r.g, s.clients[k := r.c]))
  {
    var c := s.clients[k];
    var r := Handle(s.g, c, m, env);
    match m
    case Register(ifs) => AcquireAllIsCoherent(s, k, ifs, env);
    case GetLcore(_) => SameShapeIsCoherent(s, State(r.g, s.clients[k := r.c]), k);
    case PutLcore(_) => SameShapeIsCoherent(s, State(r.g, s.clients[k := r.c]), k);
    case Ignored => assert s.clients[k := c] == s.clients;
    case XskMapFd(i) => HandleOnIsCoherent(s, k, i, m, env);
    case UdpFilter(i, _, _) => HandleOnIsCoherent(s, k, i, m, env);
    case GetQueue(i) => HandleOnIsCoherent(s, k, i, m, env);
    case PutQueue(i, _) => HandleOnIsCoherent(s, k, i, m, env);
    case AddFlow(i) => HandleOnIsCoherent(s, k, i, m, env);
    case DelFlow(i, _) => HandleOnIsCoherent(s, k, i, m, env);
  }

  /** The message names interface `i`. */
  predicate Names(m: Message, i: nat) {
    match m
    case XskMapFd(j) => i == j
    case UdpFilter(j, _, _) => i == j
    case GetQueue(j) => i == j
    case PutQueue(j, _) => i == j
    case AddFlow(j) => i == j
    case DelFlow(j, _) => i == j
    case _ => false
  }

  /** Once the interface is there, a handler changes no pointer and no use count. */
  lemma OnInterfaceKeepsPointers(g: Globals, c: Client, o: nat, i: nat, m: Message, env: Env)
    requires o in g.ifaces && Names(m, i) && i in c.held
    requires c.queues.Keys <= c.held.Keys && c.flows.Keys <= c.held.Keys
    ensures var r := OnInterface(g, c, o, m, env);
            && r.c.held == c.held && r.c.fd == c.fd && r.c.registered == c.registered
            && r.c.lcores == c.lcores && r.g.lcores == g.lcores
            && r.c.queues.Keys <= c.held.Keys && r.c.flows.Keys <= c.held.Keys
            && r.g.ifaces.Keys == g.ifaces.Keys && r.g.weak == g.weak && r.g.nextId == g.nextId
            && forall p :: p in g.ifaces ==>
                 && r.g.ifaces[p].ifindex == g.ifaces[p].ifindex
                 && r.g.ifaces[p].uses == g.ifaces[p].uses
                 && r.g.ifaces[p].count == g.ifaces[p].count
  {
  }

  lemma OnInterfaceIsCoherent(s: State, k: nat, i: nat, o: nat, m: Message, env: Env)
    requires Coherent(s) && k < |s.clients| && Holds(s.clients[k], i, o) && o in s.g.ifaces && Names(m, i)
    ensures var r := OnInterface(s.g, s.clients[k], o, m, env);
            Coherent(State(r.g, s.clients[k := r.c]))
  {
    var r := OnInterface(s.g, s.clients[k], o, m, env);
    assert ClientOk(s.g, s.clients[k]);
    OnInterfaceKeepsPointers(s.g, s.clients[k], o, i, m, env);
    SameShapeIsCoherent(s, State(r.g, s.clients[k := r.c]), k);
  }

  lemma HandleOnIsCoherent(s: State, k: nat, i: nat, m: Message, env: Env)
    requires Coherent(s) && k < |s.clients| && Names(m, i)
    ensures var r := HandleOn(s.g, s.clients[k], i, m, env);
            Coherent(State(r.g, s.clients[k := r.c]))
  {
    var a := Acquire(s.g, s.clients[k], i, env);
    AcquireIsCoherent(s, k, i, env);
    if a.obj.Some? {
      var s1 := State(a.g, s.clients[k := a.c]);
      OnInterfaceIsCoherent(s1, k, i, a.obj.value, m, env);
      UpdateTwice(s.clients, k, a.c, OnInterface(a.g, a.c, a.obj.value, m, env).c);
    }
  }

  lemma UpdateTwice(cs: seq<Client>, k: nat, c: Client, d: Client)
    requires k < |cs|
    ensures cs[k := c][k] == c && cs[k := c][k := d] == cs[k := d]
  {
  }

  lemma LeaveIsCoherent(s: State, k: nat, env: Env)
    requires Coherent(s) && k < |s.clients|
    ensures Coherent(State(Leave(s.g, s.clients[k], env), Without(s.clients, k)))
  {
    var c := s.clients[k];
    var g := Leave(s.g, c, env);
    var rest := Without(s.clients, k);
    forall j | 0 <= j < |rest| ensures ClientOk(g, rest[j]) {
      var j0 := if j < k then j else j + 1;
      assert rest[j] == s.clients[j0] && ClientOk(s.g, rest[j]);
      forall i | i in rest[j].held
        ensures rest[j].held[i] in g.ifaces && g.ifaces[rest[j].held[i]].ifindex == i
      {
        var o := rest[j].held[i];
        HoldersPositive(rest, j, i, o);
        HoldersWithout(s.clients, k, i, o);
      }
    }
    forall o | o in g.ifaces ensures g.ifaces[o].uses == Holders(rest, g.ifaces[o].ifindex, o) > 0 {
      HoldersWithout(s.clients, k, g.ifaces[o].ifindex, o);
    }
  }

  lemma StepIsCoherent(s: State, e: Event)
    requires Coherent(s)
    ensures Coherent(Step(s, e))
  {
    match e
    case Accept(fd) =>
      var t := Step(s, e);
      assert t.clients[..|t.clients| - 1] == s.clients;
      forall j | 0 <= j < |t.clients| ensures ClientOk(t.g, t.clients[j]) {
        assert j < |s.clients| ==> ClientOk(s.g, s.clients[j]);
      }
    case Deliver(fd, m, env) =>
      if Find(s.clients, fd) < |s.clients| {
        HandleIsCoherent(s, Find(s.clients, fd), m, env);
      }
    case Close(fd, env) =>
      if Find(s.clients, fd) < |s.clients| {
        LeaveIsCoherent(s, Find(s.clients, fd), env);
      }
  }

  /** Every reachable state is coherent. */
  lemma {:induction false} RunsAreCoherent(rules: set<Rule>, es: seq<Event>)
    ensures Coherent(Exec(Init(rules), es))
  {
    if es != [] {
      RunsAreCoherent(rules, es[..|es| - 1]);
      StepIsCoherent(Exec(Init(rules), es[..|es| - 1]), es[|es| - 1]);
    }
  }

  /** What coherence means for two clients: the pointers they hold for one interface are the same,
      live object, the one a third client would be given, and no second live object serves it. */
  lemma OneObjectPerInterface(rules: set<Rule>, es: seq<Event>, j: nat, k: nat, i: nat, o: nat)
    requires var s := Exec(Init(rules), es);
             j < |s.clients| && k < |s.clients| && i in s.clients[j].held
    ensures var s := Exec(Init(rules), es);
            && Live(s.g, i) && s.clients[j].held[i] == s.g.weak[i]
            && (i in s.clients[k].held ==> s.clients[k].held[i] == s.clients[j].held[i])
            && (o in s.g.ifaces && s.g.ifaces[o].ifindex == i ==> o == s.clients[j].held[i])
  {
    RunsAreCoherent(rules, es);
    var s := Exec(Init(rules), es);
    assert ClientOk(s.g, s.clients[j]) && ClientOk(s.g, s.clients[k]);
  }

  /** An interface lives exactly as long as some client holds it. */
  lemma LiveIffHeld(s: State, i: nat)
    requires Coherent(s)
    ensures Live(s.g, i) <==> exists k :: 0 <= k < |s.clients| && i in s.clients[k].held
  {
    if Live(s.g, i) {
      var k := SomeHolder(s.clients, i, s.g.weak[i]);
    }
    if k :| 0 <= k < |s.clients| && i in s.clients[k].held {
      assert ClientOk(s.g, s.clients[k]);
    }
  }

  lemma OthersHold(cs: seq<Client>, k: nat, i: nat, o: nat)
    requires k < |cs|
    ensures Holders(Without(cs, k), i, o) > 0 <==>
            exists j :: 0 <= j < |cs| && j != k && Holds(cs[j], i, o)
  {
    var rest := Without(cs, k);
    assert forall j :: 0 <= j < |rest| ==> rest[j] == cs[if j < k then j else j + 1];
    if j :| 0 <= j < |cs| && j != k && Holds(cs[j], i, o) {
      HoldersPositive(rest, if j < k then j else j - 1, i, o);
    } else {
      NoHolders(rest, i, o);
    }
  }

  /** A client is the last holder of an interface exactly when no other client holds it. */
  lemma LastHolderIff(s: State, k: nat, i: nat)
    requires Coherent(s) && k < |s.clients| && i in s.clients[k].held
    ensures LastHolder(s.g, s.clients[k], i) <==>
            forall j :: 0 <= j < |s.clients| && j != k ==> i !in s.clients[j].held
  {
    var o := s.clients[k].held[i];
    assert ClientOk(s.g, s.clients[k]);
    HoldersWithout(s.clients, k, i, o);
    OthersHold(s.clients, k, i, o);
    forall j | 0 <= j < |s.clients| ensures i in s.clients[j].held ==> Holds(s.clients[j], i, o) {
      assert ClientOk(s.g, s.clients[j]);
    }
  }

  /** Tables are cleared when an interface is built and when it is torn down. In every run, neither
      removes a rule that another connected client still records. */
  lemma ClearsSpareRecords(rules: set<Rule>, es: seq<Event>, k: nat, j: nat, i: nat, r: Rule, env: Env)
    requires var s := Exec(Init(rules), es);
             && k < |s.clients| && j < |s.clients| && j != k
             && r in s.g.rules && r.1 in Recorded(s.clients[j].flows, r.0)
    ensures var s := Exec(Init(rules), es);
            && r in Acquire(s.g, s.clients[k], i, env).g.rules
            && (r.1 !in Recorded(s.clients[k].flows, r.0) ==> r in Leave(s.g, s.clients[k], env).rules)
  {
    RunsAreCoherent(rules, es);
    var s := Exec(Init(rules), es);
    assert ClientOk(s.g, s.clients[j]) && ClientOk(s.g, s.clients[k]);
    if r.0 in s.clients[k].held { LastHolderIff(s, k, r.0); }
  }
}
