/** The daemon's event loop over its vector of clients. Its steps are exactly those of the step
    machine, so everything proved about runs of `ManagerModel` holds of it. */
module Manager {
  import opened ManagerModel
  import opened Coherence
  import opened Instance
  import Disconnect

  ghost predicate AllOk(g: Globals, cs: seq<Client>) {
    forall k :: 0 <= k < |cs| ==> ClientOk(g, cs[k])
  }

  /** The client at `k` can be destroyed, and leaves the others in order. */
  ghost predicate MayLeaveAt(s: State, k: nat, env: Env)
    requires k < |s.clients|
  {
    && ClientOk(s.g, s.clients[k])
    && AllOk(Leave(s.g, s.clients[k], env), Without(s.clients, k))
  }

  ghost predicate MayLeave(s: State, fd: int, env: Env) {
    var k := Find(s.clients, fd);
    k < |s.clients| ==> MayLeaveAt(s, k, env)
  }

  class Manager {
    const g: Shared
    var clients: seq<Instance>

    ghost function ClientViews(): seq<Client>
      reads this, clients
    {
      seq(|clients|, k requires 0 <= k < |clients| reads this, clients => clients[k].View())
    }

    ghost predicate Valid()
      reads this, clients, g, g.repr
    {
      && g.Valid()
      && (forall j, k :: 0 <= j < |clients| && 0 <= k < |clients| && j != k ==> clients[j] != clients[k])
      && (forall k :: 0 <= k < |clients| ==> clients[k].Linked(g))
    }

    ghost function View(): State
      requires Valid()
      reads this, clients, g, g.repr, g.lcores.bs, g.kernel
    {
      State(g.View(), ClientViews())
    }

    constructor (rules: set<Rule>)
      ensures Valid() && View() == Init(rules)
      ensures fresh(g) && fresh(g.lcores.bs) && fresh(g.kernel) && g.repr == {}
    {
      g := new Shared(rules);
      clients := [];
    }

    /** A new connection. */
    method Accept(fd: int)
      requires Valid()
      modifies this
      ensures Valid() && View() == Step(old(View()), Event.Accept(fd))
      ensures |clients| == |old(clients)| + 1 && clients[..|old(clients)|] == old(clients)
      ensures fresh(clients[|old(clients)|])
    {
      var client := new Instance(fd);
      clients := clients + [client];
      g.Untouched();
      assert ClientViews() == old(ClientViews()) + [NewClient(fd)];
    }

    /** The search for the client of a descriptor. */
    method FindClient(fd: int) returns (k: nat)
      ensures k == Find(ClientViews(), fd)
    {
      k := 0;
      assert ClientViews()[0..] == ClientViews();
      while k < |clients| && clients[k].fd != fd
        invariant 0 <= k <= |clients|
        invariant k + Find(ClientViews()[k..], fd) == Find(ClientViews(), fd)
      {
        assert ClientViews()[k..][1..] == ClientViews()[k + 1..];
        k := k + 1;
      }
    }

    /** Only client `k` has changed, and no interface has gone. */
    twostate lemma OneClientChanged(k: nat)
      requires old(Valid()) && unchanged(this) && k < |clients|
      requires forall j :: 0 <= j < |clients| && j != k ==> unchanged(clients[j])
      requires g.Valid() && clients[k].Linked(g) && g.Extends(old(g.live))
      ensures Valid() && ClientViews() == old(ClientViews())[k := clients[k].View()]
    {
      forall j | 0 <= j < |clients| ensures clients[j].Linked(g) {
        assert old(clients[j].Linked(g));
      }
    }

    /** A message from the client at `k`. */
    method DeliverTo(k: nat, m: Message, env: Env, ghost s: State, ghost r: Outcome) returns (reply: Reply)
      requires Valid() && s == View() && k < |clients| == |s.clients|
      requires r == Handle(s.g, s.clients[k], m, env)
      modifies clients, g, g.lcores.bs, g.kernel, g.repr
      ensures Valid() && old(g.repr) <= g.repr && fresh(g.repr - old(g.repr))
      ensures View() == State(r.g, s.clients[k := r.c]) && reply == r.reply
    {
      reply := clients[k].HandleMessage(g, m, env);
      OneClientChanged(k);
    }

    /** One received message. */
    method Deliver(fd: int, m: Message, env: Env) returns (reply: Reply)
      requires Valid()
      modifies clients, g, g.lcores.bs, g.kernel, g.repr
      ensures Valid() && View() == Step(old(View()), Event.Deliver(fd, m, env))
      ensures reply == ReplyTo(old(View()), Event.Deliver(fd, m, env))
      ensures old(g.repr) <= g.repr && fresh(g.repr - old(g.repr))
    {
      ghost var s := View();
      var k := FindClient(fd);
      if k == |clients| { return Silent; }
      reply := DeliverTo(k, m, env, s, Delivery(s, fd, m, env));
    }

    /** The client at `k` is gone; what the others hold is still live. */
    twostate lemma ClientRemoved(k: nat)
      requires old(Valid()) && k < |old(clients)|
      requires clients == old(clients)[..k] + old(clients)[k + 1..]
      requires forall j :: 0 <= j < |clients| ==> unchanged(clients[j])
      requires g.Valid() && g.Within(old(g.live))
      requires AllOk(g.View(), Without(old(ClientViews()), k))
      ensures Valid() && ClientViews() == Without(old(ClientViews()), k)
    {
      assert ClientViews() == Without(old(ClientViews()), k);
      forall j | 0 <= j < |clients| ensures clients[j].Linked(g) {
        var j0 := if j < k then j else j + 1;
        assert clients[j] == old(clients)[j0] && old(clients[j0].Linked(g));
        assert ClientOk(g.View(), ClientViews()[j]);
        clients[j].NamesLive(g);
        clients[j].StaysLinked(g);
      }
    }

    /** The client at `k` leaves. */
    method Remove(k: nat, env: Env, ghost s: State)
      requires Valid() && s == View() && k < |clients| == |s.clients| && MayLeaveAt(s, k, env)
      modifies this, clients, g, g.lcores.bs, g.kernel, g.repr
      ensures Valid() && g.repr == old(g.repr)
      ensures clients == old(clients)[..k] + old(clients)[k + 1..]
      ensures View() == State(Leave(s.g, s.clients[k], env), Without(s.clients, k))
    {
      assert clients[k].View() == s.clients[k];
      Disconnect.Destroy(clients[k], g, env);
      clients := clients[..k] + clients[k + 1..];
      ClientRemoved(k);
    }

    /** One closed connection. */
    method Close(fd: int, env: Env)
      requires Valid() && MayLeave(View(), fd, env)
      modifies this, clients, g, g.lcores.bs, g.kernel, g.repr
      ensures Valid() && View() == Step(old(View()), Event.Close(fd, env))
      ensures g.repr == old(g.repr)
      ensures forall k :: 0 <= k < |clients| ==> clients[k] in old(clients)
    {
      ghost var s := View();
      var k := FindClient(fd);
      if k == |clients| { return; }
      Remove(k, env, s);
      StillThere(old(clients), clients, k);
    }

    /** One event. */
    method HandleEvent(e: Event) returns (reply: Reply)
      requires Valid() && Coherent(View())
      modifies this, clients, g, g.lcores.bs, g.kernel, g.repr
      ensures Valid() && View() == Step(old(View()), e) && reply == ReplyTo(old(View()), e)
      ensures old(g.repr) <= g.repr && fresh(g.repr - old(g.repr))
      ensures forall k :: 0 <= k < |clients| ==> clients[k] in old(clients) || fresh(clients[k])
    {
      match e
      case Accept(fd) =>
        Accept(fd);
        reply := Silent;
      case Deliver(fd, m, env) =>
        reply := Deliver(fd, m, env);
      case Close(fd, env) =>
        AllMayLeave(View(), fd, env);
        Close(fd, env);
        reply := Silent;
    }

    /** The daemon is where the first n events take the step machine. */
    ghost predicate Ran(start: State, es: seq<Event>, n: nat)
      reads this, clients, g, g.repr, g.lcores.bs, g.kernel
    {
      n <= |es| && Valid() && View() == Exec(start, es[..n]) && Coherent(View())
    }

    /** One turn of the event loop. */
    method Turn(es: seq<Event>, n: nat, ghost start: State)
      requires n < |es| && Ran(start, es, n)
      modifies this, clients, g, g.lcores.bs, g.kernel, g.repr
      ensures Ran(start, es, n + 1)
      ensures old(g.repr) <= g.repr && fresh(g.repr - old(g.repr))
      ensures forall k :: 0 <= k < |clients| ==> clients[k] in old(clients) || fresh(clients[k])
    {
      ghost var s := View();
      ExecNext(start, es, n);
      StepIsCoherent(s, es[n]);
      var reply := HandleEvent(es[n]);
    }

    /** The event loop, for any sequence of events: it runs the step machine. */
    method Run(es: seq<Event>)
      requires Valid() && Coherent(View())
      modifies this, clients, g, g.lcores.bs, g.kernel, g.repr
      ensures Valid() && View() == Exec(old(View()), es)
    {
      ghost var start := View();
      var n := 0;
      while n < |es|
        invariant Ran(start, es, n)
        invariant old(g.repr) <= g.repr && fresh(g.repr - old(g.repr))
        invariant forall k :: 0 <= k < |clients| ==> clients[k] in old(clients) || fresh(clients[k])
      {
        Turn(es, n, start);
        n := n + 1;
      }
      assert es[..n] == es;
    }
  }

  /** What the client of this descriptor makes of a message. */
  ghost function Delivery(s: State, fd: int, m: Message, env: Env): (r: Outcome)
    requires Find(s.clients, fd) < |s.clients|
    ensures var k := Find(s.clients, fd);
            && r == Handle(s.g, s.clients[k], m, env)
            && Step(s, Event.Deliver(fd, m, env)) == State(r.g, s.clients[k := r.c])
            && ReplyTo(s, Event.Deliver(fd, m, env)) == r.reply
  {
    Handle(s.g, s.clients[Find(s.clients, fd)], m, env)
  }

  lemma StillThere(before: seq<Instance>, now: seq<Instance>, k: nat)
    requires k < |before| && now == before[..k] + before[k + 1..]
    ensures forall j :: 0 <= j < |now| ==> now[j] in before
  {
  }

  lemma AllMayLeave(s: State, fd: int, env: Env)
    requires Coherent(s)
    ensures MayLeave(s, fd, env)
  {
    var k := Find(s.clients, fd);
    if k < |s.clients| { LeaveIsCoherent(s, k, env); }
  }
}
