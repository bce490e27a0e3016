/** The port filter inside whole runs of the daemon: the filter of a live interface is decided by
    the filter messages that reached this very object, from all clients, since it was built. */
module FilterRuns {
  import opened Options
  import opened ManagerModel
  import opened Coherence
  import Filter

  /** The filter call that event `e` makes on object `o`, if any. */
  function OpOn(s: State, e: Event, o: nat): seq<Filter.Op> {
    if e.Deliver? && e.msg.UdpFilter? && Find(s.clients, e.fd) < |s.clients|
       && Acquire(s.g, s.clients[Find(s.clients, e.fd)], e.msg.ifindex, e.env).obj == Some(o)
    then [Filter.Op(e.msg.port, e.msg.add)] else []
  }

  /** All filter calls a run makes on object `o`. */
  function OpsOn(s: State, es: seq<Event>, o: nat): seq<Filter.Op> {
    if es == [] then []
    else
      var init := es[..|es| - 1];
      OpsOn(s, init, o) + OpOn(Exec(s, init), es[|es| - 1], o)
  }

  /** Object `o` is in `h` with the filter it had in `g`, or is new in `h` with an empty one. */
  predicate SameFilter(g: Globals, h: Globals, o: nat) {
    o in h.ifaces ==>
      h.ifaces[o].filter == if o in g.ifaces then g.ifaces[o].filter else Filter.EMPTY
  }

  /** Names are handed out in order: what is new in `h` has a name unused in `g`. */
  predicate NewNames(g: Globals, h: Globals, o: nat) {
    g.nextId <= h.nextId && (o in h.ifaces && o !in g.ifaces ==> g.nextId <= o < h.nextId)
  }

  lemma {:induction false} AcquireAllKeepsFilters(g: Globals, c: Client, ifs: seq<nat>, env: Env, o: nat)
    requires o in g.ifaces ==> o < g.nextId
    ensures var r := AcquireAll(g, c, ifs, env);
            SameFilter(g, r.g, o) && NewNames(g, r.g, o)
            && (o in r.g.ifaces ==> o < r.g.nextId) && (o in g.ifaces ==> o in r.g.ifaces)
    decreases ifs
  {
    if ifs != [] {
      var a := Acquire(g, c, ifs[0], env);
      if a.obj.Some? {
        AcquireAllKeepsFilters(a.g, a.c, ifs[1..], env, o);
      }
    }
  }

  /** The filter object `o` has once the calls `ops` (none or one) are made on it. */
  function Apply(g: Globals, o: nat, ops: seq<Filter.Op>): Filter.Table {
    var t := if o in g.ifaces then g.ifaces[o].filter else Filter.EMPTY;
    if ops == [] then t else Filter.Update(t, ops[0]).0
  }

  lemma FilterMessageApplies(s: State, k: nat, m: Message, env: Env, o: nat)
    requires Coherent(s) && k < |s.clients| && m.UdpFilter?
    ensures var h := Handle(s.g, s.clients[k], m, env).g;
            var ops := if Acquire(s.g, s.clients[k], m.ifindex, env).obj == Some(o)
                       then [Filter.Op(m.port, m.add)] else [];
            && NewNames(s.g, h, o) && (ops != [] ==> o < h.nextId)
            && (o in h.ifaces ==> h.ifaces[o].filter == Apply(s.g, o, ops))
  {
    AcquireIsCoherent(s, k, m.ifindex, env);
  }

  lemma OnInterfaceKeepsFilters(g: Globals, c: Client, p: nat, m: Message, env: Env, o: nat)
    requires p in g.ifaces && !m.UdpFilter?
    ensures var h := OnInterface(g, c, p, m, env).g;
            h.ifaces.Keys == g.ifaces.Keys && h.nextId == g.nextId && SameFilter(g, h, o)
  {
  }

  lemma HandleOnKeepsFilters(g: Globals, c: Client, i: nat, m: Message, env: Env, o: nat)
    requires GlobalsOk(g) && !m.UdpFilter?
    ensures var h := HandleOn(g, c, i, m, env).g;
            NewNames(g, h, o) && SameFilter(g, h, o)
  {
    var a := Acquire(g, c, i, env);
    if a.obj.Some? && a.obj.value in a.g.ifaces {
      OnInterfaceKeepsFilters(a.g, a.c, a.obj.value, m, env, o);
    }
  }

  lemma OtherMessageKeepsFilters(s: State, k: nat, m: Message, env: Env, o: nat)
    requires Coherent(s) && k < |s.clients| && !m.UdpFilter?
    ensures var h := Handle(s.g, s.clients[k], m, env).g;
            NewNames(s.g, h, o) && SameFilter(s.g, h, o)
  {
    var c := s.clients[k];
    match m
    case Register(ifs) => AcquireAllKeepsFilters(s.g, c, ifs, env, o);
    case XskMapFd(i) => HandleOnKeepsFilters(s.g, c, i, m, env, o);
    case GetQueue(i) => HandleOnKeepsFilters(s.g, c, i, m, env, o);
    case PutQueue(i, _) => HandleOnKeepsFilters(s.g, c, i, m, env, o);
    case AddFlow(i) => HandleOnKeepsFilters(s.g, c, i, m, env, o);
    case DelFlow(i, _) => HandleOnKeepsFilters(s.g, c, i, m, env, o);
    case _ =>
  }

  lemma StepApplies(s: State, e: Event, o: nat)
    requires Coherent(s)
    ensures var h := Step(s, e).g;
            && NewNames(s.g, h, o) && (OpOn(s, e, o) != [] ==> o < h.nextId)
            && (o in h.ifaces ==> h.ifaces[o].filter == Apply(s.g, o, OpOn(s, e, o)))
  {
    if e.Deliver? && Find(s.clients, e.fd) < |s.clients| {
      if e.msg.UdpFilter? {
        FilterMessageApplies(s, Find(s.clients, e.fd), e.msg, e.env, o);
      } else {
        OtherMessageKeepsFilters(s, Find(s.clients, e.fd), e.msg, e.env, o);
      }
    }
  }

  lemma RunSnoc(ops: seq<Filter.Op>, op: Filter.Op)
    ensures Filter.Run(ops + [op]) == Filter.Update(Filter.Run(ops), op).0
  {
    assert (ops + [op])[..|ops|] == ops;
  }

  /** In every run, a live object's filter is what its own history of calls makes it. */
  lemma {:induction false} FilterIsHistory(rules: set<Rule>, es: seq<Event>, o: nat)
    ensures var s := Exec(Init(rules), es);
            var ops := OpsOn(Init(rules), es, o);
            && (ops != [] ==> o < s.g.nextId)
            && (o in s.g.ifaces ==> s.g.ifaces[o].filter == Filter.Run(ops))
  {
    if es != [] {
      var init, e := es[..|es| - 1], es[|es| - 1];
      FilterIsHistory(rules, init, o);
      RunsAreCoherent(rules, init);
      var s := Exec(Init(rules), init);
      StepApplies(s, e, o);
      var ops, more := OpsOn(Init(rules), init, o), OpOn(s, e, o);
      if more == [] {
        assert ops + more == ops;
      } else {
        RunSnoc(ops, more[0]);
      }
    }
  }

  /** End to end, over every run of any number of clients: which packets arriving on interface `i`
      the XDP program diverts. */
  lemma PacketsFollowMessages(rules: set<Rule>, es: seq<Event>, i: nat, pkt: Filter.Packet)
    requires Live(Exec(Init(rules), es).g, i)
    ensures var g := Exec(Init(rules), es).g;
            var ops := OpsOn(Init(rules), es, g.weak[i]);
            && (Diverts(g, i, pkt) <==>
                && pkt.Udp? && pkt.dst in Filter.FirstNamed(ops)
                && (Filter.Net(ops, pkt.dst) > 0 || Filter.LastIsAdd(ops, pkt.dst)))
            && (Filter.AddsFit(ops) ==> (Diverts(g, i, pkt) <==> pkt.Udp? && Filter.Net(ops, pkt.dst) > 0))
  {
    var o := Exec(Init(rules), es).g.weak[i];
    FilterIsHistory(rules, es, o);
    Filter.VerdictFollowsHistory(OpsOn(Init(rules), es, o), pkt);
  }

  /** The XDP program on interface `i` diverts the packet. */
  predicate Diverts(g: Globals, i: nat, pkt: Filter.Packet) {
    Live(g, i) && Filter.DpFilter(g.ifaces[g.weak[i]].filter.ports, pkt) == Filter.Drop
  }

  // ---- Filters and disconnection ----

  /** Filters are given back only with the interface. After the client at `k` leaves, an interface
      it held lives on exactly if another client holds it, and then with every filter the leaver set;
      otherwise whoever opens it next starts from an empty one. */
  lemma FiltersOutliveTheirClient(s: State, k: nat, i: nat, env: Env, d: Client, env': Env)
    requires Coherent(s) && k < |s.clients| && i in s.clients[k].held && i !in d.held
    ensures var g := Leave(s.g, s.clients[k], env);
            var kept := exists j :: 0 <= j < |s.clients| && j != k && i in s.clients[j].held;
            && (Live(g, i) <==> kept)
            && (kept ==> g.weak[i] == s.g.weak[i] && g.ifaces[g.weak[i]].filter == s.g.ifaces[s.g.weak[i]].filter)
            && (forall pkt :: kept ==> (Diverts(g, i, pkt) <==> Diverts(s.g, i, pkt)))
            && var a := Acquire(g, d, i, env');
               !kept && a.obj.Some? ==> a.g.ifaces[a.obj.value].filter == Filter.EMPTY
  {
    assert ClientOk(s.g, s.clients[k]);
    LastHolderIff(s, k, i);
  }

  function ExampleRun(env: Env): seq<Event> {
    [Accept(1), Accept(2), Deliver(1, UdpFilter(7, 5000, true), env), Deliver(2, XskMapFd(7), env), Close(1, env)]
  }

  /** The first of two new clients opens an interface and filters a port on it. */
  lemma FirstFilters(s: State, e: Event)
    requires s == State(Init({}).g, [NewClient(1), NewClient(2)])
    requires e.Deliver? && e.fd == 1 && e.msg.UdpFilter? && e.msg.add && e.msg.ifindex in e.env.channels
    ensures var t := Step(s, e);
            && |t.clients| == 2 && t.clients[0].fd == 1 && t.clients[1] == NewClient(2)
            && t.clients[0].held == map[e.msg.ifindex := 0] && Diverts(t.g, e.msg.ifindex, Filter.Udp(e.msg.port))
  {
    assert Find(s.clients, 1) == 0;
  }

  lemma ExampleAccepted(env: Env)
    ensures Exec(Init({}), ExampleRun(env)[..2]) == State(Init({}).g, [NewClient(1), NewClient(2)])
  {
    var es := ExampleRun(env);
    assert es[..0] == [];
    ExecNext(Init({}), es, 0);
    ExecNext(Init({}), es, 1);
  }

  lemma ExampleFiltered(env: Env)
    requires 7 in env.channels
    ensures var s := Exec(Init({}), ExampleRun(env)[..3]);
            && |s.clients| == 2 && s.clients[0].fd == 1 && s.clients[1] == NewClient(2)
            && s.clients[0].held == map[7 := 0] && Diverts(s.g, 7, Filter.Udp(5000))
  {
    var es := ExampleRun(env);
    ExampleAccepted(env);
    FirstFilters(Exec(Init({}), es[..2]), es[2]);
    ExecNext(Init({}), es, 2);
  }

  lemma SecondClientOpens(s: State, i: nat, e: Event, pkt: Filter.Packet)
    requires |s.clients| == 2 && s.clients[0].fd != s.clients[1].fd
    requires i !in s.clients[1].held && Diverts(s.g, i, pkt)
    requires e.Deliver? && e.fd == s.clients[1].fd && e.msg == XskMapFd(i)
    ensures var t := Step(s, e);
            && |t.clients| == 2 && t.clients[0] == s.clients[0] && t.clients[1].fd == s.clients[1].fd
            && i in t.clients[1].held && Diverts(t.g, i, pkt)
  {
    assert Find(s.clients, s.clients[1].fd) == 1;
    var h := HandleOn(s.g, s.clients[1], i, XskMapFd(i), e.env);
    assert Handle(s.g, s.clients[1], XskMapFd(i), e.env) == h;
  }

  lemma ExampleShared(env: Env)
    requires 7 in env.channels
    ensures var s := Exec(Init({}), ExampleRun(env)[..4]);
            && |s.clients| == 2 && s.clients[0].fd == 1 && s.clients[1].fd == 2
            && 7 in s.clients[0].held && 7 in s.clients[1].held && Diverts(s.g, 7, Filter.Udp(5000))
  {
    var es := ExampleRun(env);
    ExampleFiltered(env);
    SecondClientOpens(Exec(Init({}), es[..3]), 7, es[3], Filter.Udp(5000));
    ExecNext(Init({}), es, 3);
  }

  /** A run: client 1 filters a port and leaves while client 2 has the interface open. The port's
      packets are still diverted, although nobody who asked for it is left. */
  lemma FilterWithoutClient(env: Env)
    requires 7 in env.channels
    ensures var s := Exec(Init({}), ExampleRun(env));
            |s.clients| == 1 && s.clients[0].fd == 2 && Diverts(s.g, 7, Filter.Udp(5000))
  {
    var es := ExampleRun(env);
    var s := Exec(Init({}), es[..4]);
    ExampleShared(env);
    ExecNext(Init({}), es, 4);
    assert es[..5] == es && Find(s.clients, 1) == 0;
    RunsAreCoherent({}, es[..4]);
    FiltersOutliveTheirClient(s, 0, 7, env, NewClient(3), env);
  }
}
