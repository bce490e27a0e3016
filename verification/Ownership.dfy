/** The daemon seen from outside: an allocator that knows which connections there are, which
    interfaces are open, who owns what and which rules of the kernel belong to nobody, and nothing
    about records or objects. While clients release only what is theirs, the daemon answers every
    event as the allocator does, from any tables and whatever the kernel answers. */
module Ownership {
  import opened Options
  import opened ManagerModel
  import opened Coherence
  import opened NoLeak
  import opened Exclusivity
  import opened Strays
  import Filter

  type Owners = imap<Resource, int>

  /** What there is to know about an open interface. */
  datatype Port = Port(count: nat, filter: Filter.Table)

  datatype Conn = Conn(registered: bool, open: set<nat>)

  datatype Allocator = Allocator(owners: Owners, strays: set<Rule>, conns: map<int, Conn>, ports: map<nat, Port>)

  // ---- The allocator ----

  ghost function Free(a: Owners, r: Resource): Owners {
    imap x | x in a && x != r :: a[x]
  }

  ghost function Give(a: Owners, r: Resource, fd: int): Owners {
    imap x | x in a || x == r :: if x == r then fd else a[x]
  }

  ghost function FreeAll(a: Owners, fd: int): Owners {
    imap x | x in a && a[x] != fd :: a[x]
  }

  ghost function Take(a: Owners, r: Resource, fd: int): (Owners, Reply)
    requires r !in a
  {
    (Give(a, r, fd), Code(match r case Lcore(_) => 0 case Queue(_, q) => q case Flow(_, l) => l))
  }

  ghost function Release(a: Owners, r: Resource, fd: int): (Owners, Reply) {
    if r in a && a[r] == fd then (Free(a, r), Code(0)) else (a, Code(-1))
  }

  ghost function OwnedQueues(a: Owners, i: nat, count: nat): set<nat> {
    set q: nat | q < count && Queue(i, q) in a
  }

  ghost function OwnedLocations(a: Owners, i: nat, last: int): set<nat> {
    set l: nat | l <= last && Flow(i, l) in a
  }

  /** The lowest queue nobody owns, but never queue 0. */
  ghost function GiveQueue(a: Owners, fd: int, i: nat, count: nat): (Owners, Reply) {
    var q := LowestFree(1, count, OwnedQueues(a, i, count));
    if q < 0 then (a, Code(-1)) else Take(a, Queue(i, q), fd)
  }

  /** The highest location that is free of owned and stray rules, but never location 0. */
  ghost function GiveFlow(a: Owners, strays: set<Rule>, fd: int, i: nat, env: Env): (Owners, Reply) {
    var last := LastLocation(env.tableSize);
    var l := HighestFree(last, OwnedLocations(a, i, last) + Locations(strays, i));
    if l <= 0 || !env.insertOk then (a, Code(-1)) else Take(a, Flow(i, l), fd)
  }

  /** A rule goes if the kernel agrees and it is the client's, or nobody's. */
  ghost function DropFlow(a: Allocator, fd: int, r: Rule, env: Env): (Allocator, Reply) {
    if r in env.delFails then (a, Code(-1))
    else if r in a.strays then (a.(strays := a.strays - {r}), Code(0))
    else var x := Release(a.owners, Flow(r.0, r.1), fd); (a.(owners := x.0), x.1)
  }

  ghost function LcoreRequest(a: Owners, fd: int, m: Message): (Owners, Reply)
    requires m.GetLcore? || m.PutLcore?
  {
    if m.PutLcore? then Release(a, Lcore(m.id), fd)
    else if m.id >= MAX_LCORE || Lcore(m.id) in a then (a, Code(-1))
    else Take(a, Lcore(m.id), fd)
  }

  /** Opening an interface for a connection; it must be open already, or open now. An attempt to open
      it begins with a clear of its table. */
  ghost function OpenPort(a: Allocator, fd: int, i: nat, env: Env): (r: (Allocator, bool))
    requires fd in a.conns
    ensures r.1 ==> i in r.0.ports
    ensures fd in r.0.conns
  {
    var c := a.conns[fd];
    var conns := a.conns[fd := c.(open := c.open + {i})];
    var strays := Cleared(a.strays, i, env);
    if i in a.ports then (a.(conns := conns), true)
    else if i in env.channels then
      (a.(conns := conns, strays := strays, ports := a.ports[i := Port(env.channels[i], Filter.EMPTY)]), true)
    else (a.(strays := strays), false)
  }

  ghost function RegisterAll(a: Allocator, fd: int, ifs: seq<nat>, env: Env): (Allocator, Reply)
    requires fd in a.conns
    decreases ifs
  {
    if ifs == [] then (a.(conns := a.conns[fd := a.conns[fd].(registered := true)]), Code(0)) else
    var o := OpenPort(a, fd, ifs[0], env);
    if o.1 then RegisterAll(o.0, fd, ifs[1..], env) else (o.0, Code(-1))
  }

  ghost function OwnerRequest(a: Allocator, count: nat, fd: int, i: nat, m: Message, env: Env): (Owners, Reply) {
    match m
    case GetQueue(_) => GiveQueue(a.owners, fd, i, count)
    case PutQueue(_, q) => Release(a.owners, Queue(i, q), fd)
    case AddFlow(_) => GiveFlow(a.owners, a.strays, fd, i, env)
    case _ => (a.owners, Silent)
  }

  ghost function OnPort(a: Allocator, fd: int, i: nat, m: Message, env: Env): (Allocator, Reply)
    requires i in a.ports
  {
    var p := a.ports[i];
    if m.UdpFilter? then
      var u := Filter.Update(p.filter, Filter.Op(m.port, m.add));
      (a.(ports := a.ports[i := p.(filter := u.0)]), Code(u.1))
    else if m.DelFlow? then
      DropFlow(a, fd, (i, m.loc), env)
    else
      var x := OwnerRequest(a, p.count, fd, i, m, env);
      (a.(owners := x.0), x.1)
  }

  ghost function PortRequest(a: Allocator, fd: int, i: nat, m: Message, env: Env): (Allocator, Reply)
    requires fd in a.conns
  {
    var o := OpenPort(a, fd, i, env);
    if o.1 then OnPort(o.0, fd, i, m, env) else (o.0, if m.XskMapFd? then Silent else Code(-1))
  }

  ghost function Answer(a: Allocator, fd: int, m: Message, env: Env): (Allocator, Reply)
    requires fd in a.conns
  {
    match m
    case Register(ifs) => RegisterAll(a, fd, ifs, env)
    case GetLcore(_) => LcoreAnswer(a, fd, m)
    case PutLcore(_) => LcoreAnswer(a, fd, m)
    case XskMapFd(i) => PortRequest(a, fd, i, m, env)
    case UdpFilter(i, _, _) => PortRequest(a, fd, i, m, env)
    case GetQueue(i) => PortRequest(a, fd, i, m, env)
    case PutQueue(i, _) => PortRequest(a, fd, i, m, env)
    case AddFlow(i) => PortRequest(a, fd, i, m, env)
    case DelFlow(i, _) => PortRequest(a, fd, i, m, env)
    case Ignored => (a, Silent)
  }

  ghost function LcoreAnswer(a: Allocator, fd: int, m: Message): (Allocator, Reply)
    requires fd in a.conns && (m.GetLcore? || m.PutLcore?)
  {
    if !a.conns[fd].registered then (a, Silent)
    else var x := LcoreRequest(a.owners, fd, m); (a.(owners := x.0), x.1)
  }

  /** The connection is the only one that has the interface open. */
  ghost predicate LastOpen(a: Allocator, fd: int, i: nat) {
    && fd in a.conns && i in a.conns[fd].open
    && !exists x :: x in a.conns && x != fd && i in a.conns[x].open
  }

  /** A rule of a closed connection that the kernel does not delete belongs to nobody from now on. */
  ghost function StraysAfterHangup(a: Allocator, fd: int, env: Env): set<Rule> {
    set r | r in a.strays + env.delFails
         && (r in a.strays || (Flow(r.0, r.1) in a.owners && a.owners[Flow(r.0, r.1)] == fd))
         && !(LastOpen(a, fd, r.0) && ClearHits(env, r))
  }

  /** A connection is closed: what it owns is free, what it alone has open is closed, after a clear. */
  ghost function Hangup(a: Allocator, fd: int, env: Env): Allocator {
    Allocator(FreeAll(a.owners, fd),
              StraysAfterHangup(a, fd, env),
              a.conns - {fd},
              map i | i in a.ports && exists x :: x in a.conns && x != fd && i in a.conns[x].open :: a.ports[i])
  }

  /** One event: the next state of the allocator and its answer. */
  ghost function Next(a: Allocator, e: Event): (Allocator, Reply) {
    match e
    case Accept(fd) => (a.(conns := a.conns[fd := Conn(false, {})]), Silent)
    case Deliver(fd, m, env) => if fd in a.conns then Answer(a, fd, m, env) else (a, Silent)
    case Close(fd, env) => (if fd in a.conns then Hangup(a, fd, env) else a, Silent)
  }

  /** The allocator's run, from what is in the kernel's tables. */
  ghost function RunOf(rules: set<Rule>, es: seq<Event>): Allocator {
    if es == [] then Allocator(imap[], rules, map[], map[])
    else Next(RunOf(rules, es[..|es| - 1]), es[|es| - 1]).0
  }

  // ---- Which events are in order, as far as the allocator can tell ----

  /** The resource belongs to another connection. */
  ghost predicate Foreign(a: Owners, r: Resource, fd: int) {
    r in a && a[r] != fd
  }

  /** A client releases neither what belongs to another one nor queue 0. */
  ghost predicate OwnReleases(a: Allocator, e: Event) {
    e.Deliver? && e.fd in a.conns ==>
      match e.msg
      case PutLcore(id) => a.conns[e.fd].registered ==> !Foreign(a.owners, Lcore(id), e.fd)
      case PutQueue(i, q) =>
        i in a.ports || i in e.env.channels ==> q != 0 && !Foreign(a.owners, Queue(i, q), e.fd)
      case DelFlow(i, l) =>
        (i in a.ports || i in e.env.channels) && (i, l) !in e.env.delFails ==> !Foreign(a.owners, Flow(i, l), e.fd)
      case _ => true
  }

  /** `accept` returns a descriptor that is not open. */
  ghost predicate FreshFd(a: Allocator, e: Event) {
    e.Accept? ==> e.fd !in a.conns
  }

  ghost predicate Orderly(rules: set<Rule>, es: seq<Event>) {
    es == [] ||
    var a, e := RunOf(rules, es[..|es| - 1]), es[|es| - 1];
    Orderly(rules, es[..|es| - 1]) && OwnReleases(a, e) && FreshFd(a, e)
  }

  // ---- The daemon as an allocator ----

  function OwnerOf(cs: seq<Client>, r: Resource): Option<int> {
    if cs == [] then None
    else if Records(cs[|cs| - 1], r) then Some(cs[|cs| - 1].fd)
    else OwnerOf(cs[..|cs| - 1], r)
  }

  ghost function View(cs: seq<Client>): Owners {
    imap r | OwnerOf(cs, r).Some? :: OwnerOf(cs, r).value
  }

  function ConnOf(c: Client): Conn {
    Conn(c.registered, c.held.Keys)
  }

  function ConnsOf(cs: seq<Client>): map<int, Conn> {
    if cs == [] then map[]
    else var c := cs[|cs| - 1]; ConnsOf(cs[..|cs| - 1])[c.fd := ConnOf(c)]
  }

  function PortOf(f: Iface): Port {
    Port(f.count, f.filter)
  }

  function PortsOf(g: Globals): map<nat, Port> {
    map i | i in g.weak && Live(g, i) :: PortOf(g.ifaces[g.weak[i]])
  }

  ghost function Abs(s: State): Allocator {
    Allocator(View(s.clients), StraysOf(s), ConnsOf(s.clients), PortsOf(s.g))
  }

  // ---- Owners of a daemon state ----

  ghost predicate DistinctFds(cs: seq<Client>) {
    forall j, k :: 0 <= j < |cs| && 0 <= k < |cs| && j != k ==> cs[j].fd != cs[k].fd
  }

  ghost predicate Disjoint(cs: seq<Client>) {
    forall j, k, r :: 0 <= j < |cs| && 0 <= k < |cs| && j != k && Records(cs[j], r) ==>
      !Records(cs[k], r)
  }

  lemma ExclusiveIsDisjoint(s: State)
    requires Exclusive(s)
    ensures Disjoint(s.clients)
  {
    forall j, k, r |
      0 <= j < |s.clients| && 0 <= k < |s.clients| && j != k && Records(s.clients[j], r)
      ensures !Records(s.clients[k], r)
    {
      assert ExclusiveFor(s, r);
    }
  }

  /** A recorded resource belongs to the client that records it. */
  lemma {:induction false} OwnerIsRecorder(cs: seq<Client>, k: nat, r: Resource)
    requires Disjoint(cs) && k < |cs| && Records(cs[k], r)
    ensures OwnerOf(cs, r) == Some(cs[k].fd)
  {
    var n := |cs| - 1;
    if k < n {
      assert !Records(cs[n], r);
      assert forall j :: 0 <= j < n ==> cs[..n][j] == cs[j];
      OwnerIsRecorder(cs[..n], k, r);
    }
  }

  lemma {:induction false} NobodysOwner(cs: seq<Client>, r: Resource)
    requires forall k :: 0 <= k < |cs| ==> !Records(cs[k], r)
    ensures OwnerOf(cs, r) == None
  {
    if cs != [] {
      NobodysOwner(cs[..|cs| - 1], r);
    }
  }

  lemma {:induction false} OwnerRecords(cs: seq<Client>, r: Resource) returns (k: nat)
    requires OwnerOf(cs, r).Some?
    ensures k < |cs| && Records(cs[k], r) && cs[k].fd == OwnerOf(cs, r).value
  {
    k := |cs| - 1;
    if !Records(cs[k], r) {
      k := OwnerRecords(cs[..k], r);
    }
  }

  /** The owner map after the records of one client change. */
  lemma OwnerAfterUpdate(cs: seq<Client>, k: nat, c: Client, r: Resource)
    requires k < |cs| && Disjoint(cs) && Disjoint(cs[k := c]) && c.fd == cs[k].fd
    ensures OwnerOf(cs[k := c], r) ==
            if Records(c, r) then Some(c.fd) else if Records(cs[k], r) then None else OwnerOf(cs, r)
  {
    var ds := cs[k := c];
    if Records(c, r) {
      OwnerIsRecorder(ds, k, r);
    } else if Records(cs[k], r) {
      assert forall j :: 0 <= j < |ds| && j != k ==> ds[j] == cs[j];
      NobodysOwner(ds, r);
    } else if OwnerOf(cs, r).Some? {
      var j := OwnerRecords(cs, r);
      assert ds[j] == cs[j];
      OwnerIsRecorder(ds, j, r);
    } else {
      forall j | 0 <= j < |ds| ensures !Records(ds[j], r) {
        if j != k && Records(cs[j], r) {
          OwnerIsRecorder(cs, j, r);
        }
      }
      NobodysOwner(ds, r);
    }
  }

  /** A client whose records do not change leaves the owner map alone. */
  lemma SameRecordsSameView(cs: seq<Client>, k: nat, c: Client)
    requires k < |cs| && Disjoint(cs) && Disjoint(cs[k := c]) && c.fd == cs[k].fd
    requires forall r :: Records(c, r) <==> Records(cs[k], r)
    ensures View(cs[k := c]) == View(cs)
  {
    forall r ensures OwnerOf(cs[k := c], r) == OwnerOf(cs, r) {
      OwnerAfterUpdate(cs, k, c, r);
      if Records(c, r) {
        OwnerIsRecorder(cs, k, r);
      }
    }
  }

  /** One new record is one new owner. */
  lemma OneMore(cs: seq<Client>, k: nat, c: Client, r: Resource)
    requires k < |cs| && Disjoint(cs) && Disjoint(cs[k := c]) && c.fd == cs[k].fd
    requires forall x :: Records(c, x) <==> Records(cs[k], x) || x == r
    ensures View(cs[k := c]) == Give(View(cs), r, c.fd)
  {
    var ds := cs[k := c];
    forall x ensures OwnerOf(ds, x) == (if x == r then Some(c.fd) else OwnerOf(cs, x)) {
      OwnerAfterUpdate(cs, k, c, x);
      if Records(cs[k], x) {
        OwnerIsRecorder(cs, k, x);
      }
    }
  }

  /** One record less is one owner less. */
  lemma OneLess(cs: seq<Client>, k: nat, c: Client, r: Resource)
    requires k < |cs| && Disjoint(cs) && Disjoint(cs[k := c]) && c.fd == cs[k].fd
    requires Records(cs[k], r)
    requires forall x :: Records(c, x) <==> Records(cs[k], x) && x != r
    ensures View(cs[k := c]) == Free(View(cs), r)
    ensures r in View(cs) && View(cs)[r] == c.fd
  {
    var ds := cs[k := c];
    OwnerIsRecorder(cs, k, r);
    forall x ensures OwnerOf(ds, x) == (if x == r then None else OwnerOf(cs, x)) {
      OwnerAfterUpdate(cs, k, c, x);
      if Records(cs[k], x) {
        OwnerIsRecorder(cs, k, x);
      }
    }
  }

  /** A resource owned under the client's descriptor is recorded by that client. */
  lemma OwnedByMeansRecords(cs: seq<Client>, k: nat, r: Resource)
    requires Disjoint(cs) && DistinctFds(cs) && k < |cs|
    ensures r in View(cs) && View(cs)[r] == cs[k].fd <==> Records(cs[k], r)
  {
    if OwnerOf(cs, r).Some? {
      var j := OwnerRecords(cs, r);
    }
    if Records(cs[k], r) {
      OwnerIsRecorder(cs, k, r);
    }
  }

  /** Nobody owns what nobody records. */
  lemma OwnedMeansRecorded(cs: seq<Client>, r: Resource)
    requires Disjoint(cs)
    ensures r in View(cs) <==> exists k :: 0 <= k < |cs| && Records(cs[k], r)
  {
    if OwnerOf(cs, r).Some? {
      var j := OwnerRecords(cs, r);
    }
    if k :| 0 <= k < |cs| && Records(cs[k], r) {
      OwnerIsRecorder(cs, k, r);
    }
  }

  // ---- Connections ----

  lemma {:induction false} Connected(cs: seq<Client>, fd: int)
    ensures fd in ConnsOf(cs) <==> exists k :: 0 <= k < |cs| && cs[k].fd == fd
    ensures fd in ConnsOf(cs) <==> Find(cs, fd) < |cs|
  {
    if cs != [] { Connected(cs[..|cs| - 1], fd); }
  }

  lemma DistinctInit(cs: seq<Client>)
    requires DistinctFds(cs) && cs != []
    ensures DistinctFds(cs[..|cs| - 1]) && cs[|cs| - 1].fd !in ConnsOf(cs[..|cs| - 1])
  {
    Connected(cs[..|cs| - 1], cs[|cs| - 1].fd);
  }

  lemma {:induction false} ConnAt(cs: seq<Client>, k: nat)
    requires DistinctFds(cs) && k < |cs|
    ensures cs[k].fd in ConnsOf(cs) && ConnsOf(cs)[cs[k].fd] == ConnOf(cs[k])
  {
    if k < |cs| - 1 {
      DistinctInit(cs);
      ConnAt(cs[..|cs| - 1], k);
    }
  }

  lemma SameFds(cs: seq<Client>, k: nat, c: Client)
    requires DistinctFds(cs) && k < |cs| && c.fd == cs[k].fd
    ensures DistinctFds(cs[k := c])
  {
    assert forall j :: 0 <= j < |cs| ==> cs[k := c][j].fd == cs[j].fd;
  }

  lemma {:induction false} ConnsUpdate(cs: seq<Client>, k: nat, c: Client)
    requires DistinctFds(cs) && k < |cs| && c.fd == cs[k].fd
    ensures ConnsOf(cs[k := c]) == ConnsOf(cs)[c.fd := ConnOf(c)]
  {
    var n := |cs| - 1;
    DistinctInit(cs);
    if k < n {
      assert cs[k := c][..n] == cs[..n][k := c];
      ConnsUpdate(cs[..n], k, c);
      assert cs[n].fd != c.fd;
    } else {
      assert cs[k := c][..n] == cs[..n];
    }
  }

  lemma SameConns(cs: seq<Client>, k: nat, c: Client)
    requires DistinctFds(cs) && k < |cs| && c.fd == cs[k].fd
    requires c.registered == cs[k].registered && c.held.Keys == cs[k].held.Keys
    ensures ConnsOf(cs[k := c]) == ConnsOf(cs)
  {
    ConnsUpdate(cs, k, c);
    ConnAt(cs, k);
  }

  lemma DistinctWithout(cs: seq<Client>, k: nat)
    requires DistinctFds(cs) && k < |cs|
    ensures DistinctFds(Without(cs, k))
  {
    var rest := Without(cs, k);
    assert forall j :: 0 <= j < |rest| ==> rest[j] == cs[if j < k then j else j + 1];
  }

  lemma Commutes(m: map<int, Conn>, a: int, x: Conn, b: int)
    requires a != b
    ensures m[a := x] - {b} == (m - {b})[a := x]
  {
  }

  lemma {:induction false} ConnsWithout(cs: seq<Client>, k: nat)
    requires DistinctFds(cs) && k < |cs|
    ensures ConnsOf(Without(cs, k)) == ConnsOf(cs) - {cs[k].fd}
  {
    var n := |cs| - 1;
    DistinctInit(cs);
    if k < n {
      assert Without(cs, k)[..n - 1] == Without(cs[..n], k) && Without(cs, k)[n - 1] == cs[n];
      ConnsWithout(cs[..n], k);
      Commutes(ConnsOf(cs[..n]), cs[n].fd, ConnOf(cs[n]), cs[k].fd);
    } else {
      assert Without(cs, k) == cs[..n];
    }
  }

  // ---- The shared tables say the same as the owner map ----

  /** All that the refinement needs to know about a state. */
  ghost predicate Exact(s: State) {
    Sound(s) && Exclusive(s) && DistinctFds(s.clients)
  }

  lemma MarkedIsOwned(s: State, r: Resource)
    requires Exact(s) && !r.Flow? && (r.Queue? ==> r.queue != 0)
    ensures Marked(s.g, r) <==> r in View(s.clients)
  {
    ExclusiveIsDisjoint(s);
    OwnedMeansRecorded(s.clients, r);
    if Marked(s.g, r) {
      match r
      case Lcore(id) => assert LcoreRecorded(s.clients, id);
      case Queue(i, q) => assert QueueRecorded(s.clients, i, q);
    }
    assert ExclusiveFor(s, r);
  }

  lemma RecordedIsOwned(s: State, r: Rule)
    requires Exclusive(s)
    ensures FlowRecorded(s.clients, r) <==> Flow(r.0, r.1) in View(s.clients)
    ensures Flow(r.0, r.1) in View(s.clients) ==> r in s.g.rules
  {
    var f := Flow(r.0, r.1);
    ExclusiveIsDisjoint(s);
    OwnedMeansRecorded(s.clients, f);
    assert ExclusiveFor(s, f);
    if k :| 0 <= k < |s.clients| && Records(s.clients[k], f) { assert r.1 in Recorded(s.clients[k].flows, r.0); }
    if k :| 0 <= k < |s.clients| && r.1 in Recorded(s.clients[k].flows, r.0) { assert Records(s.clients[k], f); }
  }

  lemma ForeignIsOther(s: State, k: nat, r: Resource)
    requires Exclusive(s) && DistinctFds(s.clients) && k < |s.clients|
    ensures Foreign(View(s.clients), r, s.clients[k].fd) <==> Other(s.clients, k, r)
  {
    ExclusiveIsDisjoint(s);
    if j :| 0 <= j < |s.clients| && j != k && Records(s.clients[j], r) {
      OwnerIsRecorder(s.clients, j, r);
    }
    if OwnerOf(s.clients, r).Some? { var j := OwnerRecords(s.clients, r); }
  }

  /** The searches find the same whether they look at the tables or at the owner map. */
  lemma {:induction false} LowestFreeAgrees(from: nat, count: nat, taken: set<nat>, owned: set<nat>)
    requires forall q: nat :: from <= q < count ==> (q in taken <==> q in owned)
    ensures LowestFree(from, count, taken) == LowestFree(from, count, owned)
    decreases count - from
  {
    if from < count && from in taken {
      LowestFreeAgrees(from + 1, count, taken, owned);
    }
  }

  lemma {:induction false} HighestFreeAgrees(last: int, used: set<nat>, owned: set<nat>)
    requires forall l: nat :: l <= last ==> (l in used <==> l in owned)
    ensures HighestFree(last, used) == HighestFree(last, owned)
    decreases last
  {
    if last > 0 && last in used {
      HighestFreeAgrees(last - 1, used, owned);
    }
  }

  // ---- Requests ----

  /** The client at `k` has become `c`, which records `r` as well. */
  lemma Taking(s: State, k: nat, t: State, c: Client, r: Resource)
    requires Exclusive(s) && Exclusive(t) && k < |s.clients| && t.clients == s.clients[k := c]
    requires c.fd == s.clients[k].fd && forall x :: Records(c, x) <==> Records(s.clients[k], x) || x == r
    ensures View(t.clients) == Give(View(s.clients), r, c.fd)
  {
    ExclusiveIsDisjoint(s);
    ExclusiveIsDisjoint(t);
    OneMore(s.clients, k, c, r);
  }

  /** The client at `k` has become `c`, which records all but `r`, or nothing has changed. */
  lemma Releasing(s: State, k: nat, t: State, c: Client, r: Resource)
    requires Exclusive(s) && Exclusive(t) && DistinctFds(s.clients)
    requires k < |s.clients| && t.clients == s.clients[k := c] && c.fd == s.clients[k].fd
    requires forall x :: Records(c, x) <==> Records(s.clients[k], x) && x != r
    ensures View(t.clients) == Release(View(s.clients), r, c.fd).0
    ensures Release(View(s.clients), r, c.fd).1 == Code(if Records(s.clients[k], r) then 0 else -1)
  {
    ExclusiveIsDisjoint(s);
    ExclusiveIsDisjoint(t);
    OwnedByMeansRecords(s.clients, k, r);
    if Records(s.clients[k], r) {
      OneLess(s.clients, k, c, r);
    } else {
      SameRecordsSameView(s.clients, k, c);
    }
  }

  lemma LcoreIsServed(s: State, k: nat, m: Message, env: Env)
    requires Exact(s) && k < |s.clients| && (m.GetLcore? || m.PutLcore?) && s.clients[k].registered
    requires PoliteMessage(s, k, m, env, Lcore(m.id))
    requires var x := Handle(s.g, s.clients[k], m, env); Exclusive(State(x.g, s.clients[k := x.c]))
    ensures var x := Handle(s.g, s.clients[k], m, env);
            (View(s.clients[k := x.c]), x.reply) == LcoreRequest(View(s.clients), s.clients[k].fd, m)
  {
    var x := Handle(s.g, s.clients[k], m, env);
    var t, r := State(x.g, s.clients[k := x.c]), Lcore(m.id);
    MarkedIsOwned(s, r);
    assert ExclusiveFor(s, r);
    if x.reply != Code(0) { assert t.clients == s.clients; }
    if m.PutLcore? {
      PoliteMarkIsOwn(s, k, r);
      Releasing(s, k, t, x.c, r);
    } else if x.reply == Code(0) {
      Taking(s, k, t, x.c, r);
    }
  }

  /** Something marked that no other client records is recorded by this one. */
  lemma PoliteMarkIsOwn(s: State, k: nat, r: Resource)
    requires Exact(s) && !r.Flow? && (r.Queue? ==> r.queue != 0)
    requires k < |s.clients| && !Other(s.clients, k, r)
    ensures Marked(s.g, r) <==> Records(s.clients[k], r)
  {
    MarkedIsOwned(s, r);
    ExclusiveIsDisjoint(s);
    OwnedMeansRecorded(s.clients, r);
  }

  lemma GetQueueIsServed(s: State, k: nat, i: nat, o: nat)
    requires Exact(s) && Serves(s, k, i, o)
    requires var x := TakeQueue(s.g, s.clients[k], o, i); Exclusive(State(x.g, s.clients[k := x.c]))
    ensures var x := TakeQueue(s.g, s.clients[k], o, i);
            (View(s.clients[k := x.c]), x.reply)
            == GiveQueue(View(s.clients), s.clients[k].fd, i, s.g.ifaces[o].count)
  {
    var c, f := s.clients[k], s.g.ifaces[o];
    var x := TakeQueue(s.g, c, o, i);
    MarksOn(s, k, i, o, i);
    var owned := OwnedQueues(View(s.clients), i, f.count);
    forall q: nat | 0 < q < f.count ensures q in f.taken <==> q in owned {
      MarkedIsOwned(s, Queue(i, q));
    }
    LowestFreeAgrees(1, f.count, f.taken, owned);
    assert Reserved(s.g, i) && 0 in f.taken;
    var q := LowestFree(0, f.count, f.taken);
    if q < 0 {
      assert s.clients[k := c] == s.clients;
    } else {
      MarkedIsOwned(s, Queue(i, q));
      Taking(s, k, State(x.g, s.clients[k := x.c]), x.c, Queue(i, q));
    }
  }

  lemma PutQueueIsServed(s: State, k: nat, i: nat, o: nat, q: nat)
    requires Exact(s) && Serves(s, k, i, o) && q != 0 && !Other(s.clients, k, Queue(i, q))
    requires var x := ReturnQueue(s.g, s.clients[k], o, i, q); Exclusive(State(x.g, s.clients[k := x.c]))
    ensures var x := ReturnQueue(s.g, s.clients[k], o, i, q);
            (View(s.clients[k := x.c]), x.reply) == Release(View(s.clients), Queue(i, q), s.clients[k].fd)
  {
    var x := ReturnQueue(s.g, s.clients[k], o, i, q);
    MarksOn(s, k, i, o, i);
    PoliteMarkIsOwn(s, k, Queue(i, q));
    assert Marked(s.g, Queue(i, q)) ==> q < s.g.ifaces[o].count;
    Releasing(s, k, State(x.g, s.clients[k := x.c]), x.c, Queue(i, q));
  }

  lemma SameLocation(s: State, i: nat, last: int)
    requires Exclusive(s)
    ensures HighestFree(last, Locations(s.g.rules, i))
         == HighestFree(last, OwnedLocations(View(s.clients), i, last) + Locations(StraysOf(s), i))
  {
    var used, owned := Locations(s.g.rules, i), OwnedLocations(View(s.clients), i, last) + Locations(StraysOf(s), i);
    forall l: nat | l <= last ensures l in used <==> l in owned {
      RecordedIsOwned(s, (i, l));
      InLocations(s.g.rules, i, l);
      InLocations(StraysOf(s), i, l);
    }
    HighestFreeAgrees(last, used, owned);
  }

  lemma AddFlowIsServed(s: State, k: nat, i: nat, env: Env)
    requires Exact(s) && k < |s.clients|
    requires var x := InsertFlow(s.g, s.clients[k], i, env); Exclusive(State(x.g, s.clients[k := x.c]))
    ensures var x := InsertFlow(s.g, s.clients[k], i, env);
            (View(s.clients[k := x.c]), x.reply) == GiveFlow(View(s.clients), StraysOf(s), s.clients[k].fd, i, env)
  {
    var c := s.clients[k];
    var x := InsertFlow(s.g, c, i, env);
    SameLocation(s, i, LastLocation(env.tableSize));
    var l := FlowLocation(s.g.rules, i, env.tableSize);
    if l <= 0 || !env.insertOk {
      assert s.clients[k := c] == s.clients;
    } else {
      RecordedIsOwned(s, (i, l));
      InLocations(s.g.rules, i, l);
      Taking(s, k, State(x.g, s.clients[k := x.c]), x.c, Flow(i, l));
    }
  }

  lemma DelFlowIsServed(s: State, k: nat, i: nat, l: nat, env: Env)
    requires Exact(s) && k < |s.clients| && ((i, l) !in env.delFails ==> !Other(s.clients, k, Flow(i, l)))
    requires var x := DeleteFlow(s.g, s.clients[k], i, l, env); Exclusive(State(x.g, s.clients[k := x.c]))
    ensures var x := DeleteFlow(s.g, s.clients[k], i, l, env);
            var y := DropFlow(Abs(s), s.clients[k].fd, (i, l), env);
            View(s.clients[k := x.c]) == y.0.owners && x.reply == y.1
  {
    var x := DeleteFlow(s.g, s.clients[k], i, l, env);
    if (i, l) in env.delFails {
      assert s.clients[k := x.c] == s.clients;
    } else {
      RecordedIsOwned(s, (i, l));
      RecordedAfter(s.clients, k, s.clients[k], (i, l));
      Releasing(s, k, State(x.g, s.clients[k := x.c]), x.c, Flow(i, l));
    }
  }

  /** A request on an interface the client holds, as far as ownership goes. */
  lemma RequestIsServed(s: State, k: nat, i: nat, o: nat, m: Message, env: Env)
    requires Exact(s) && Serves(s, k, i, o) && Names(m, i) && !m.UdpFilter? && !m.DelFlow?
    requires forall r :: PoliteMessage(s, k, m, env, r)
    requires forall p :: SparesMessage(s, k, m, env, p)
    requires var x := OnInterface(s.g, s.clients[k], o, m, env); Exclusive(State(x.g, s.clients[k := x.c]))
    ensures var x := OnInterface(s.g, s.clients[k], o, m, env);
            (View(s.clients[k := x.c]), x.reply)
            == OwnerRequest(Abs(s), s.g.ifaces[o].count, s.clients[k].fd, i, m, env)
  {
    match m
    case GetQueue(_) => GetQueueIsServed(s, k, i, o);
    case PutQueue(_, q) =>
      assert PoliteMessage(s, k, m, env, Queue(i, q)) && SparesMessage(s, k, m, env, i);
      PutQueueIsServed(s, k, i, o, q);
    case AddFlow(_) => AddFlowIsServed(s, k, i, env);
    case XskMapFd(_) => assert s.clients[k := s.clients[k]] == s.clients;
  }

  /** What becomes of the rules that belong to nobody. */
  lemma OnInterfaceKeepsStrays(s: State, k: nat, i: nat, o: nat, m: Message, env: Env)
    requires Serves(s, k, i, o) && Names(m, i)
    ensures var x := OnInterface(s.g, s.clients[k], o, m, env);
            StraysOf(State(x.g, s.clients[k := x.c])) ==
            (if m.DelFlow? && (i, m.loc) !in env.delFails then StraysOf(s) - {(i, m.loc)} else StraysOf(s))
  {
    var x := OnInterface(s.g, s.clients[k], o, m, env);
    var t := State(x.g, s.clients[k := x.c]);
    forall r: Rule ensures r in StraysOf(t) <==> r in StraysOf(s) && !(m == DelFlow(r.0, r.1) && r !in env.delFails) {
      OnInterfaceStrays(s, k, i, o, m, env, r);
    }
  }

  // ---- Open interfaces ----

  lemma SamePorts(g: Globals, h: Globals)
    requires h.weak == g.weak && h.ifaces.Keys == g.ifaces.Keys
    requires forall o :: o in g.ifaces ==> PortOf(h.ifaces[o]) == PortOf(g.ifaces[o])
    ensures PortsOf(h) == PortsOf(g)
  {
  }

  lemma OnInterfaceRefines(s: State, k: nat, i: nat, o: nat, m: Message, env: Env)
    requires Exact(s) && Serves(s, k, i, o) && Names(m, i)
    requires forall r :: PoliteMessage(s, k, m, env, r)
    requires forall p :: SparesMessage(s, k, m, env, p)
    requires var x := OnInterface(s.g, s.clients[k], o, m, env); Exclusive(State(x.g, s.clients[k := x.c]))
    ensures i in PortsOf(s.g)
    ensures var x := OnInterface(s.g, s.clients[k], o, m, env);
            (Abs(State(x.g, s.clients[k := x.c])), x.reply) == OnPort(Abs(s), s.clients[k].fd, i, m, env)
  {
    var x := OnInterface(s.g, s.clients[k], o, m, env);
    MarksOn(s, k, i, o, i);
    OnInterfaceKeepsStrays(s, k, i, o, m, env);
    if m.UdpFilter? {
      assert s.clients[k := x.c] == s.clients;
      FilterPorts(s, k, i, o, m.port, m.add);
    } else {
      OnInterfaceKeepsConn(s.g, s.clients[k], o, m, env);
      SameConns(s.clients, k, x.c);
      SamePorts(s.g, x.g);
      if m.DelFlow? {
        assert PoliteMessage(s, k, m, env, Flow(i, m.loc));
        DelFlowIsServed(s, k, i, m.loc, env);
        DropsOne(StraysOf(s), Abs(s), s.clients[k].fd, (i, m.loc), env);
      } else {
        RequestIsServed(s, k, i, o, m, env);
      }
    }
  }

  lemma DropsOne(strays: set<Rule>, a: Allocator, fd: int, r: Rule, env: Env)
    requires strays == a.strays
    ensures DropFlow(a, fd, r, env).0.strays == (if r !in env.delFails then strays - {r} else strays)
    ensures DropFlow(a, fd, r, env).0.conns == a.conns && DropFlow(a, fd, r, env).0.ports == a.ports
  {
  }

  lemma OnInterfaceKeepsConn(g: Globals, c: Client, o: nat, m: Message, env: Env)
    requires o in g.ifaces && !m.UdpFilter?
    ensures var x := OnInterface(g, c, o, m, env);
            && x.c.fd == c.fd && x.c.registered == c.registered && x.c.held == c.held
            && x.g.weak == g.weak && x.g.ifaces.Keys == g.ifaces.Keys
            && forall p :: p in g.ifaces ==> PortOf(x.g.ifaces[p]) == PortOf(g.ifaces[p])
  {
  }

  lemma FilterPorts(s: State, k: nat, i: nat, o: nat, port: nat, add: bool)
    requires Coherent(s) && Serves(s, k, i, o)
    ensures i in PortsOf(s.g)
    ensures var u := Filter.Update(s.g.ifaces[o].filter, Filter.Op(port, add));
            PortsOf(UpdateFilter(s.g, s.clients[k], o, port, add).g)
            == PortsOf(s.g)[i := PortsOf(s.g)[i].(filter := u.0)]
  {
    MarksOn(s, k, i, o, i);
    var h := UpdateFilter(s.g, s.clients[k], o, port, add).g;
    forall p | p in PortsOf(s.g) && p != i ensures PortsOf(h)[p] == PortsOf(s.g)[p] {
      MarksOn(s, k, i, o, p);
    }
  }

  lemma AcquireStaysExclusive(s: State, k: nat, i: nat, env: Env)
    requires Sound(s) && Exclusive(s) && k < |s.clients|
    ensures var a := Acquire(s.g, s.clients[k], i, env);
            Exclusive(State(a.g, s.clients[k := a.c])) && View(s.clients[k := a.c]) == View(s.clients)
  {
    var a := Acquire(s.g, s.clients[k], i, env);
    var t := State(a.g, s.clients[k := a.c]);
    forall r ensures ExclusiveFor(t, r) && (Records(a.c, r) <==> Records(s.clients[k], r)) {
      assert ExclusiveFor(s, r);
      AcquireIsExclusive(s, k, i, env, r);
      AcquireKeepsMarks(s, k, i, env, r);
    }
    forall p ensures Reserved(t.g, p) {
      assert Reserved(s.g, p);
      AcquireReserves(s, k, i, env, p);
    }
    ExclusiveIsDisjoint(s);
    ExclusiveIsDisjoint(t);
    AcquireKeepsConn(s.g, s.clients[k], i, env);
    SameRecordsSameView(s.clients, k, a.c);
  }

  lemma AcquireIsExact(s: State, k: nat, i: nat, env: Env)
    requires Exact(s) && k < |s.clients|
    ensures var a := Acquire(s.g, s.clients[k], i, env);
            var t := State(a.g, s.clients[k := a.c]);
            Exact(t) && (a.obj.Some? ==> Serves(t, k, i, a.obj.value))
  {
    AcquireIsCoherent(s, k, i, env);
    AcquireLeaksNothing(s, k, i, env);
    AcquireStaysExclusive(s, k, i, env);
    AcquireKeepsConn(s.g, s.clients[k], i, env);
    SameFds(s.clients, k, Acquire(s.g, s.clients[k], i, env).c);
  }

  lemma AcquireKeepsConn(g: Globals, c: Client, i: nat, env: Env)
    ensures var a := Acquire(g, c, i, env);
            && a.c.fd == c.fd && a.c.registered == c.registered
            && a.c.held.Keys == (if a.obj.Some? then c.held.Keys + {i} else c.held.Keys)
  {
    if i in c.held { assert c.held.Keys == c.held.Keys + {i}; }
  }

  lemma NewPort(g: Globals, i: nat, f: Iface)
    requires GlobalsOk(g) && !Live(g, i)
    ensures var h := g.(ifaces := g.ifaces[g.nextId := f], weak := g.weak[i := g.nextId], nextId := g.nextId + 1);
            PortsOf(h) == PortsOf(g)[i := PortOf(f)]
  {
    var h := g.(ifaces := g.ifaces[g.nextId := f], weak := g.weak[i := g.nextId], nextId := g.nextId + 1);
    var ps, qs := PortsOf(g), PortsOf(h);
    assert i in qs && qs[i] == PortOf(f);
    forall p | p != i ensures p in qs <==> p in ps
                      ensures p in ps ==> qs[p] == ps[p]
    {
      assert Live(h, p) <==> Live(g, p);
    }
  }

  lemma AcquirePorts(s: State, k: nat, i: nat, env: Env)
    requires Coherent(s) && k < |s.clients|
    ensures var a := Acquire(s.g, s.clients[k], i, env);
            && (a.obj.Some? <==> i in PortsOf(s.g) || i in env.channels)
            && PortsOf(a.g) == (if i !in PortsOf(s.g) && i in env.channels
                                then PortsOf(s.g)[i := Port(env.channels[i], Filter.EMPTY)] else PortsOf(s.g))
  {
    var c := s.clients[k];
    LiveIsPort(s, k, i);
    if i in c.held {
    } else if Live(s.g, i) || i !in env.channels {
      SamePorts(s.g, Acquire(s.g, c, i, env).g);
    } else {
      var g1 := s.g.(rules := Cleared(s.g.rules, i, env));
      SamePorts(s.g, g1);
      NewPort(g1, i, FreshIface(i, env.channels[i]));
    }
  }

  lemma AcquireConns(s: State, k: nat, i: nat, env: Env)
    requires DistinctFds(s.clients) && k < |s.clients|
    ensures s.clients[k].fd in ConnsOf(s.clients)
    ensures var a := Acquire(s.g, s.clients[k], i, env);
            var cs, fd := ConnsOf(s.clients), s.clients[k].fd;
            ConnsOf(s.clients[k := a.c]) == (if a.obj.Some? then cs[fd := cs[fd].(open := cs[fd].open + {i})] else cs)
  {
    var a := Acquire(s.g, s.clients[k], i, env);
    AcquireKeepsConn(s.g, s.clients[k], i, env);
    ConnAt(s.clients, k);
    if a.obj.Some? { ConnsUpdate(s.clients, k, a.c); } else { SameConns(s.clients, k, a.c); }
  }

  lemma AcquireRefines(s: State, k: nat, i: nat, env: Env)
    requires Exact(s) && k < |s.clients|
    ensures s.clients[k].fd in Abs(s).conns
    ensures var a := Acquire(s.g, s.clients[k], i, env);
            (Abs(State(a.g, s.clients[k := a.c])), a.obj.Some?) == OpenPort(Abs(s), s.clients[k].fd, i, env)
  {
    AcquireStaysExclusive(s, k, i, env);
    AcquirePorts(s, k, i, env);
    AcquireConns(s, k, i, env);
    AcquireClears(s, k, i, env);
  }

  lemma AcquireClears(s: State, k: nat, i: nat, env: Env)
    requires Coherent(s) && k < |s.clients|
    ensures var a := Acquire(s.g, s.clients[k], i, env);
            StraysOf(State(a.g, s.clients[k := a.c])) ==
            (if i in PortsOf(s.g) then StraysOf(s) else Cleared(StraysOf(s), i, env))
  {
    var a := Acquire(s.g, s.clients[k], i, env);
    var t := State(a.g, s.clients[k := a.c]);
    LiveIsPort(s, k, i);
    forall r: Rule ensures r in StraysOf(t) <==>
                           r in StraysOf(s) && !(i == r.0 && Builds(s.g, s.clients[k], i) && ClearHits(env, r)) {
      AcquireStrays(s, k, i, env, r);
    }
  }

  lemma RegisteredRefines(s: State, k: nat, d: Client)
    requires Exclusive(s) && DistinctFds(s.clients) && k < |s.clients| && d == s.clients[k].(registered := true)
    ensures d.fd in ConnsOf(s.clients)
    ensures Abs(State(s.g, s.clients[k := d]))
         == Abs(s).(conns := ConnsOf(s.clients)[d.fd := ConnsOf(s.clients)[d.fd].(registered := true)])
  {
    var t := State(s.g, s.clients[k := d]);
    forall r ensures ExclusiveFor(t, r) {
      assert ExclusiveFor(s, r);
      ReplaceClient(s, k, s.g, d, r);
    }
    ExclusiveIsDisjoint(s);
    ExclusiveIsDisjoint(t);
    SameRecordsSameView(s.clients, k, d);
    SameStrays(s, k, t, d);
    ConnAt(s.clients, k);
    ConnsUpdate(s.clients, k, d);
  }

  lemma SameStrays(s: State, k: nat, t: State, c: Client)
    requires k < |s.clients| && c.flows == s.clients[k].flows
    requires t.clients == s.clients[k := c] && t.g.rules == s.g.rules
    ensures StraysOf(t) == StraysOf(s)
  {
    forall r: Rule ensures FlowRecorded(t.clients, r) <==> FlowRecorded(s.clients, r) {
      RecordedAfter(s.clients, k, c, r);
    }
  }

  lemma {:induction false} RegisterRefines(s: State, k: nat, ifs: seq<nat>, env: Env)
    requires Exact(s) && k < |s.clients|
    ensures s.clients[k].fd in Abs(s).conns
    ensures var x := AcquireAll(s.g, s.clients[k], ifs, env);
            (Abs(State(x.g, s.clients[k := x.c])), x.reply) == RegisterAll(Abs(s), s.clients[k].fd, ifs, env)
    decreases ifs
  {
    var c := s.clients[k];
    ConnAt(s.clients, k);
    if ifs == [] {
      RegisteredRefines(s, k, c.(registered := true));
    } else {
      var a := Acquire(s.g, c, ifs[0], env);
      AcquireIsExact(s, k, ifs[0], env);
      AcquireRefines(s, k, ifs[0], env);
      AcquireKeepsConn(s.g, c, ifs[0], env);
      if a.obj.Some? {
        var s1 := State(a.g, s.clients[k := a.c]);
        RegisterRefines(s1, k, ifs[1..], env);
        var x := AcquireAll(a.g, a.c, ifs[1..], env);
        assert AcquireAll(s.g, c, ifs, env) == x && s1.clients[k := x.c] == s.clients[k := x.c];
        assert RegisterAll(Abs(s), c.fd, ifs, env) == RegisterAll(Abs(s1), c.fd, ifs[1..], env);
      }
    }
  }

  lemma OpenedRefines(s: State, k: nat, i: nat, m: Message, env: Env)
    requires Exact(s) && k < |s.clients| && Names(m, i)
    requires forall r :: PoliteMessage(s, k, m, env, r)
    requires forall p :: SparesMessage(s, k, m, env, p)
    requires Acquire(s.g, s.clients[k], i, env).obj.Some?
    ensures var a := Acquire(s.g, s.clients[k], i, env);
            var t := Abs(State(a.g, s.clients[k := a.c]));
            var x := HandleOn(s.g, s.clients[k], i, m, env);
            i in t.ports && (Abs(State(x.g, s.clients[k := x.c])), x.reply) == OnPort(t, s.clients[k].fd, i, m, env)
  {
    var a := Acquire(s.g, s.clients[k], i, env);
    HandleOnOpened(s, k, i, m, env);
    UpdateTwice(s.clients, k, a.c, HandleOn(s.g, s.clients[k], i, m, env).c);
    AcquireKeepsConn(s.g, s.clients[k], i, env);
    PoliteAfterAcquire(s, k, i, m, env);
    OnInterfaceRefines(State(a.g, s.clients[k := a.c]), k, i, a.obj.value, m, env);
  }

  lemma HandleOnOpened(s: State, k: nat, i: nat, m: Message, env: Env)
    requires Coherent(s) && k < |s.clients| && Acquire(s.g, s.clients[k], i, env).obj.Some?
    ensures var a := Acquire(s.g, s.clients[k], i, env);
            && a.obj.value in a.g.ifaces
            && HandleOn(s.g, s.clients[k], i, m, env) == OnInterface(a.g, a.c, a.obj.value, m, env)
  {
    AcquireIsCoherent(s, k, i, env);
  }

  lemma HandleOnRefines(s: State, k: nat, i: nat, m: Message, env: Env)
    requires Exact(s) && k < |s.clients| && Names(m, i)
    requires forall r :: PoliteMessage(s, k, m, env, r)
    requires forall p :: SparesMessage(s, k, m, env, p)
    ensures s.clients[k].fd in Abs(s).conns
    ensures var x := HandleOn(s.g, s.clients[k], i, m, env);
            (Abs(State(x.g, s.clients[k := x.c])), x.reply) == PortRequest(Abs(s), s.clients[k].fd, i, m, env)
  {
    AcquireRefines(s, k, i, env);
    if Acquire(s.g, s.clients[k], i, env).obj.Some? { OpenedRefines(s, k, i, m, env); }
  }

  lemma PoliteAfterAcquire(s: State, k: nat, i: nat, m: Message, env: Env)
    requires Exact(s) && k < |s.clients| && Names(m, i)
    requires forall r :: PoliteMessage(s, k, m, env, r)
    requires forall p :: SparesMessage(s, k, m, env, p)
    requires Acquire(s.g, s.clients[k], i, env).obj.Some?
    ensures var a := Acquire(s.g, s.clients[k], i, env);
            var t := State(a.g, s.clients[k := a.c]);
            var x := OnInterface(a.g, a.c, a.obj.value, m, env);
            && Exact(t) && Serves(t, k, i, a.obj.value)
            && (forall r :: PoliteMessage(t, k, m, env, r)) && (forall p :: SparesMessage(t, k, m, env, p))
            && Exclusive(State(x.g, t.clients[k := x.c]))
  {
    var a := Acquire(s.g, s.clients[k], i, env);
    var t := State(a.g, s.clients[k := a.c]);
    AcquireIsExact(s, k, i, env);
    forall r ensures PoliteMessage(t, k, m, env, r) {
      assert PoliteMessage(s, k, m, env, r) && ExclusiveFor(s, r);
      AcquireIsExclusive(s, k, i, env, r);
      ReleasesAfterAcquire(s.g, s.clients[k], i, m, env, r);
    }
    forall p ensures SparesMessage(t, k, m, env, p) {
      assert SparesMessage(s, k, m, env, p);
    }
    var x := OnInterface(a.g, a.c, a.obj.value, m, env);
    var u := State(x.g, t.clients[k := x.c]);
    forall r ensures ExclusiveFor(u, r) {
      assert ExclusiveFor(t, r) && PoliteMessage(t, k, m, env, r);
      OnInterfaceIsExclusiveIff(t, k, i, a.obj.value, m, env, r);
    }
    forall p ensures Reserved(u.g, p) {
      assert Reserved(t.g, p) && SparesMessage(t, k, m, env, p);
      OnInterfaceReservesIff(t, k, i, a.obj.value, m, env, p);
    }
  }

  lemma LcoreRefines(s: State, k: nat, m: Message, env: Env)
    requires Exact(s) && k < |s.clients| && (m.GetLcore? || m.PutLcore?)
    requires forall r :: PoliteMessage(s, k, m, env, r)
    ensures s.clients[k].fd in Abs(s).conns
    ensures var x := Handle(s.g, s.clients[k], m, env);
            (Abs(State(x.g, s.clients[k := x.c])), x.reply) == LcoreAnswer(Abs(s), s.clients[k].fd, m)
  {
    var x := Handle(s.g, s.clients[k], m, env);
    var t := State(x.g, s.clients[k := x.c]);
    ConnAt(s.clients, k);
    if s.clients[k].registered {
      forall r ensures ExclusiveFor(t, r) {
        assert ExclusiveFor(s, r) && PoliteMessage(s, k, m, env, r);
        LcoreMessageIsExclusiveIff(s, k, m, env, r);
      }
      forall p ensures Reserved(t.g, p) { assert Reserved(s.g, p); }
      LcoreIsServed(s, k, m, env);
      SameStrays(s, k, t, x.c);
      SameConns(s.clients, k, x.c);
      SamePorts(s.g, x.g);
    } else {
      assert t.clients == s.clients;
    }
  }

  /** Every message of a polite client changes the daemon, and is answered, as the allocator says. */
  lemma MessageRefines(s: State, k: nat, m: Message, env: Env)
    requires Exact(s) && k < |s.clients|
    requires forall r :: PoliteMessage(s, k, m, env, r)
    requires forall p :: SparesMessage(s, k, m, env, p)
    ensures s.clients[k].fd in Abs(s).conns
    ensures var x := Handle(s.g, s.clients[k], m, env);
            (Abs(State(x.g, s.clients[k := x.c])), x.reply) == Answer(Abs(s), s.clients[k].fd, m, env)
  {
    match m
    case Register(ifs) => RegisterRefines(s, k, ifs, env);
    case GetLcore(_) => LcoreRefines(s, k, m, env);
    case PutLcore(_) => LcoreRefines(s, k, m, env);
    case Ignored =>
      ConnAt(s.clients, k);
      assert s.clients[k := s.clients[k]] == s.clients;
    case XskMapFd(i) => HandleOnRefines(s, k, i, m, env);
    case UdpFilter(i, _, _) => HandleOnRefines(s, k, i, m, env);
    case GetQueue(i) => HandleOnRefines(s, k, i, m, env);
    case PutQueue(i, _) => HandleOnRefines(s, k, i, m, env);
    case AddFlow(i) => HandleOnRefines(s, k, i, m, env);
    case DelFlow(i, _) => HandleOnRefines(s, k, i, m, env);
  }

  // ---- Disconnection ----

  lemma OwnerWithout(cs: seq<Client>, k: nat, r: Resource)
    requires k < |cs| && Disjoint(cs)
    ensures OwnerOf(Without(cs, k), r) == (if Records(cs[k], r) then None else OwnerOf(cs, r))
  {
    var rest := Without(cs, k);
    assert forall j :: 0 <= j < |rest| ==> rest[j] == cs[if j < k then j else j + 1];
    if OwnerOf(rest, r).Some? {
      var j := OwnerRecords(rest, r);
      OwnerIsRecorder(cs, if j < k then j else j + 1, r);
    } else if OwnerOf(cs, r).Some? {
      var j := OwnerRecords(cs, r);
      if j != k { OwnerIsRecorder(rest, if j < k then j else j - 1, r); }
    }
  }

  /** A disconnection frees exactly what the leaver owned. */
  lemma LeaveFreesOwn(cs: seq<Client>, k: nat)
    requires k < |cs| && Disjoint(cs) && DistinctFds(cs)
    ensures View(Without(cs, k)) == FreeAll(View(cs), cs[k].fd)
  {
    var rest := Without(cs, k);
    forall r ensures OwnerOf(rest, r) == (if Records(cs[k], r) then None else OwnerOf(cs, r))
             ensures r in View(cs) && View(cs)[r] == cs[k].fd <==> Records(cs[k], r)
    {
      OwnerWithout(cs, k, r);
      OwnedByMeansRecords(cs, k, r);
    }
  }

  /** An interface is still open iff another connection has it open. */
  lemma OpenElsewhereIff(s: State, k: nat, i: nat)
    requires Coherent(s) && DistinctFds(s.clients) && k < |s.clients|
    ensures (exists x :: x in ConnsOf(s.clients) && x != s.clients[k].fd && i in ConnsOf(s.clients)[x].open) <==>
            exists j :: 0 <= j < |s.clients| && j != k && i in s.clients[j].held
  {
    if x :| x in ConnsOf(s.clients) && x != s.clients[k].fd && i in ConnsOf(s.clients)[x].open {
      Connected(s.clients, x);
      var j :| 0 <= j < |s.clients| && s.clients[j].fd == x;
      ConnAt(s.clients, j);
    }
    if j :| 0 <= j < |s.clients| && j != k && i in s.clients[j].held {
      ConnAt(s.clients, j);
      assert s.clients[j].fd in ConnsOf(s.clients);
    }
  }

  lemma LeavePorts(s: State, k: nat, i: nat, env: Env)
    requires Coherent(s) && k < |s.clients|
    ensures var h := Leave(s.g, s.clients[k], env);
            && (i in PortsOf(h) <==>
                i in PortsOf(s.g) && exists j :: 0 <= j < |s.clients| && j != k && i in s.clients[j].held)
            && (i in PortsOf(h) ==> PortsOf(h)[i] == PortsOf(s.g)[i])
  {
    assert ClientOk(s.g, s.clients[k]);
    LiveIffHeld(s, i);
    if i in s.clients[k].held { LastHolderIff(s, k, i); }
    if j :| 0 <= j < |s.clients| && i in s.clients[j].held { assert ClientOk(s.g, s.clients[j]); }
  }

  lemma LeavePortsRefine(s: State, k: nat, env: Env)
    requires Coherent(s) && DistinctFds(s.clients) && k < |s.clients|
    ensures PortsOf(Leave(s.g, s.clients[k], env)) == Hangup(Abs(s), s.clients[k].fd, env).ports
  {
    var ps, qs := PortsOf(Leave(s.g, s.clients[k], env)), Hangup(Abs(s), s.clients[k].fd, env).ports;
    forall i ensures i in ps <==> i in qs
             ensures i in qs ==> ps[i] == qs[i]
    {
      LeavePorts(s, k, i, env);
      OpenElsewhereIff(s, k, i);
    }
  }

  lemma LeaveRefines(s: State, k: nat, env: Env)
    requires Exact(s) && k < |s.clients|
    ensures Abs(State(Leave(s.g, s.clients[k], env), Without(s.clients, k))) == Hangup(Abs(s), s.clients[k].fd, env)
  {
    ExclusiveIsDisjoint(s);
    LeaveFreesOwn(s.clients, k);
    ConnsWithout(s.clients, k);
    LeavePortsRefine(s, k, env);
    LeaveStraysRefine(s, k, env);
  }

  lemma LastOpenIff(s: State, k: nat, i: nat)
    requires Coherent(s) && DistinctFds(s.clients) && k < |s.clients|
    ensures LastOpen(Abs(s), s.clients[k].fd, i) <==> LastHolder(s.g, s.clients[k], i)
  {
    ConnAt(s.clients, k);
    OpenElsewhereIff(s, k, i);
    if i in s.clients[k].held { LastHolderIff(s, k, i); }
  }

  lemma LeaveStraysRefine(s: State, k: nat, env: Env)
    requires Exact(s) && k < |s.clients|
    ensures StraysOf(State(Leave(s.g, s.clients[k], env), Without(s.clients, k)))
         == Hangup(Abs(s), s.clients[k].fd, env).strays
  {
    var t := State(Leave(s.g, s.clients[k], env), Without(s.clients, k));
    var a, fd := Abs(s), s.clients[k].fd;
    forall r: Rule ensures r in StraysOf(t) <==> r in Hangup(a, fd, env).strays {
      LeaveStrays(s, k, env, r);
      LastOpenIff(s, k, r.0);
      RecordedAfter(s.clients, k, s.clients[k], r);
      RecordedIsOwned(s, r);
      ExclusiveIsDisjoint(s);
      OwnedByMeansRecords(s.clients, k, Flow(r.0, r.1));
      assert ExclusiveFor(s, Flow(r.0, r.1));
    }
  }

  // ---- Steps and runs ----

  /** Own releases, as the allocator sees them, are polite in the daemon. */
  lemma OwnReleasesArePolite(s: State, e: Event)
    requires Exact(s) && OwnReleases(Abs(s), e)
    ensures Polite(s, e)
  {
    if e.Deliver? && Find(s.clients, e.fd) < |s.clients| {
      var k := Find(s.clients, e.fd);
      Connected(s.clients, e.fd);
      ConnAt(s.clients, k);
      if e.msg.PutQueue? || e.msg.DelFlow? { LiveIsPort(s, k, e.msg.ifindex); }
      forall r ensures PoliteFor(s, e, r) {
        if Releases(s.g, s.clients[k], e.msg, e.env, r) { ForeignIsOther(s, k, r); }
      }
    }
  }

  lemma LiveIsPort(s: State, k: nat, i: nat)
    requires Coherent(s) && k < |s.clients|
    ensures i in PortsOf(s.g) <==> i in s.clients[k].held || Live(s.g, i)
  {
    assert ClientOk(s.g, s.clients[k]);
  }

  /** Every step in order is a step of the allocator, with the same answer. */
  lemma StepRefines(s: State, e: Event)
    requires Exact(s) && OwnReleases(Abs(s), e) && FreshFd(Abs(s), e)
    ensures Exact(Step(s, e)) && (Abs(Step(s, e)), ReplyTo(s, e)) == Next(Abs(s), e)
  {
    OwnReleasesArePolite(s, e);
    StepIsCoherent(s, e);
    StepLeaksNothing(s, e);
    StepIsExclusiveIff(s, e);
    match e
    case Accept(fd) => AcceptRefines(s, fd);
    case Deliver(fd, m, env) =>
      Connected(s.clients, fd);
      var k := Find(s.clients, fd);
      if k < |s.clients| {
        forall r ensures PoliteMessage(s, k, m, env, r) { assert PoliteFor(s, e, r); }
        forall i ensures SparesMessage(s, k, m, env, i) { assert SparesZero(s, e, i); }
        MessageRefines(s, k, m, env);
        HandleKeepsFd(s.g, s.clients[k], m, env);
        SameFds(s.clients, k, Handle(s.g, s.clients[k], m, env).c);
      }
    case Close(fd, env) =>
      Connected(s.clients, fd);
      var k := Find(s.clients, fd);
      if k < |s.clients| {
        LeaveRefines(s, k, env);
        DistinctWithout(s.clients, k);
      }
  }

  lemma AcceptRefines(s: State, fd: int)
    requires DistinctFds(s.clients) && fd !in ConnsOf(s.clients)
    ensures DistinctFds(Step(s, Accept(fd)).clients)
    ensures Abs(Step(s, Accept(fd))) == Next(Abs(s), Accept(fd)).0
  {
    AcceptConns(s.clients, fd);
    AcceptKeepsOwners(s.clients, fd);
    AcceptKeepsStrays(s, fd);
  }

  lemma AcceptConns(cs: seq<Client>, fd: int)
    requires DistinctFds(cs) && fd !in ConnsOf(cs)
    ensures DistinctFds(cs + [NewClient(fd)])
    ensures ConnsOf(cs + [NewClient(fd)]) == ConnsOf(cs)[fd := Conn(false, {})]
  {
    assert (cs + [NewClient(fd)])[..|cs|] == cs;
    Connected(cs, fd);
    assert ConnOf(NewClient(fd)) == Conn(false, {});
  }

  lemma AcceptKeepsStrays(s: State, fd: int)
    ensures StraysOf(Step(s, Accept(fd))) == StraysOf(s)
  {
    var t := Step(s, Accept(fd));
    forall r: Rule ensures r in StraysOf(t) <==> r in StraysOf(s) { AcceptStrays(s, fd, r); }
  }

  lemma AcceptKeepsOwners(cs: seq<Client>, fd: int)
    ensures View(cs + [NewClient(fd)]) == View(cs)
  {
    assert (cs + [NewClient(fd)])[..|cs|] == cs;
  }

  lemma {:induction false} AcquireAllKeepsFd(g: Globals, c: Client, ifs: seq<nat>, env: Env)
    ensures AcquireAll(g, c, ifs, env).c.fd == c.fd
    decreases ifs
  {
    if ifs != [] {
      var a := Acquire(g, c, ifs[0], env);
      if a.obj.Some? {
        AcquireAllKeepsFd(a.g, a.c, ifs[1..], env);
      }
    }
  }

  lemma HandleOnKeepsFd(g: Globals, c: Client, i: nat, m: Message, env: Env)
    ensures HandleOn(g, c, i, m, env).c.fd == c.fd
  {
    AcquireKeepsConn(g, c, i, env);
  }

  lemma HandleKeepsFd(g: Globals, c: Client, m: Message, env: Env)
    ensures Handle(g, c, m, env).c.fd == c.fd
  {
    match m
    case Register(ifs) => AcquireAllKeepsFd(g, c, ifs, env);
    case GetLcore(_) =>
    case PutLcore(_) =>
    case Ignored =>
    case XskMapFd(i) => HandleOnKeepsFd(g, c, i, m, env);
    case UdpFilter(i, _, _) => HandleOnKeepsFd(g, c, i, m, env);
    case GetQueue(i) => HandleOnKeepsFd(g, c, i, m, env);
    case PutQueue(i, _) => HandleOnKeepsFd(g, c, i, m, env);
    case AddFlow(i) => HandleOnKeepsFd(g, c, i, m, env);
    case DelFlow(i, _) => HandleOnKeepsFd(g, c, i, m, env);
  }

  /** What the daemon has answered along a run, and what the allocator answers. */
  function Replies(s: State, es: seq<Event>): seq<Reply> {
    if es == [] then []
    else Replies(s, es[..|es| - 1]) + [ReplyTo(Exec(s, es[..|es| - 1]), es[|es| - 1])]
  }

  ghost function Answers(rules: set<Rule>, es: seq<Event>): seq<Reply> {
    if es == [] then []
    else Answers(rules, es[..|es| - 1]) + [Next(RunOf(rules, es[..|es| - 1]), es[|es| - 1]).1]
  }

  /** Refinement over whole runs: from any kernel tables and with any answers of the kernel, an orderly
      sequence of events takes the daemon where it takes the allocator, with the same answers all the
      way. */
  lemma {:induction false} OrderlyRunsRefine(rules: set<Rule>, es: seq<Event>)
    requires Orderly(rules, es)
    ensures var s := Exec(Init(rules), es);
            Exact(s) && Abs(s) == RunOf(rules, es) && Replies(Init(rules), es) == Answers(rules, es)
  {
    if es == [] {
      assert View([]) == imap[] && StraysOf(Init(rules)) == rules;
    } else {
      OrderlyRunsRefine(rules, es[..|es| - 1]);
      StepRefines(Exec(Init(rules), es[..|es| - 1]), es[|es| - 1]);
    }
  }
}
