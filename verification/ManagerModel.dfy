/** A small Option type. */
module Options {
  datatype Option<+T> = None | Some(value: T)
}

/** The manager daemon as a step machine. A state holds the tables the daemon shares between its
    clients and one record per connected client; a step is one accepted connection, one received
    message or one closed connection. Every step is a total function of the state and of what the
    kernel answers during it, so a run is any sequence of events. */
module ManagerModel {
  import opened Options
  import Filter

  /** `MTL_MAX_LCORE`, that is `CPU_SETSIZE`. */
  const MAX_LCORE: nat := 1024

  /** What the driver may report as its number of combined channels. */
  type Channels = n: nat | 1 <= n <= 65536 witness 1

  type U32 = n: nat | n < 0x1_0000_0000

  /** An entry of a kernel flow table: interface index and location. */
  type Rule = (nat, nat)

  /** One live interface object. `uses` is the use count of its shared pointers. */
  datatype Iface = Iface(ifindex: nat, uses: nat, count: nat, taken: set<nat>, filter: Filter.Table)

  /** One connected client. `held` maps interface indices to interface objects. */
  datatype Client = Client(
    fd: int,
    registered: bool,
    lcores: set<nat>,
    held: map<nat, nat>,
    queues: map<nat, set<nat>>,
    flows: map<nat, set<nat>>)

  /** What all clients share. `ifaces` holds the live interface objects, `weak` is the global map
      of weak pointers, whose targets may be dead, and `nextId` names the next new object. */
  datatype Globals = Globals(
    lcores: set<nat>,
    rules: set<Rule>,
    ifaces: map<nat, Iface>,
    weak: map<nat, nat>,
    nextId: nat)

  datatype State = State(g: Globals, clients: seq<Client>)

  /** What the kernel answers during one step: the channel count of every interface whose set-up
      succeeds, the rules it fails to delete one by one or while clearing a table, what it lists for
      a table to be cleared (nothing, if one of the requests fails), the size of the flow table and
      whether it accepts an insertion. */
  datatype Env = Env(
    channels: map<nat, Channels>,
    delFails: set<Rule>,
    clearFails: set<Rule>,
    listed: map<nat, seq<nat>>,
    tableSize: U32,
    insertOk: bool)

  /** A received message. Short ones, wrong magic and unknown types are all `Ignored`. */
  datatype Message =
    | Register(ifs: seq<nat>)
    | GetLcore(id: nat)
    | PutLcore(id: nat)
    | XskMapFd(ifindex: nat)
    | UdpFilter(ifindex: nat, port: nat, add: bool)
    | GetQueue(ifindex: nat)
    | PutQueue(ifindex: nat, queue: nat)
    | AddFlow(ifindex: nat)
    | DelFlow(ifindex: nat, loc: nat)
    | Ignored

  datatype Event =
    | Accept(fd: int)
    | Deliver(fd: int, msg: Message, env: Env)
    | Close(fd: int, env: Env)

  /** The response code sent back, if any. */
  datatype Reply = Silent | Code(value: int)

  datatype Acquired = Acquired(g: Globals, c: Client, obj: Option<nat>)
  datatype Outcome = Outcome(g: Globals, c: Client, reply: Reply)

  // ---- Interfaces ----

  function Recorded(m: map<nat, set<nat>>, i: nat): set<nat> {
    if i in m then m[i] else {}
  }

  /** `lock()` on the weak pointer of interface `i` succeeds. */
  predicate Live(g: Globals, i: nat) {
    i in g.weak && g.weak[i] in g.ifaces
  }

  /** A clear of the rule's table deletes the rule: the kernel lists it first and can delete it. */
  predicate ClearHits(env: Env, r: Rule) {
    && r.0 in env.listed && env.listed[r.0] != [] && r.1 == env.listed[r.0][0]
    && r !in env.clearFails
  }

  /** `clear_flow_rules`. Its loop resets its own bound in the first turn, so it deletes no more than
      the rule that the kernel lists first. */
  function Cleared(rules: set<Rule>, i: nat, env: Env): set<Rule> {
    set r | r in rules && !(r.0 == i && ClearHits(env, r))
  }

  function FreshIface(i: nat, channels: Channels): Iface {
    Iface(i, 1, channels, {0}, Filter.EMPTY)
  }

  /** `get_interface`: the client's own pointer, else the global one, else a new interface, whose
      constructor clears the flow table before anything in it can fail. */
  function Acquire(g: Globals, c: Client, i: nat, env: Env): Acquired {
    if i in c.held then
      Acquired(g, c, Some(c.held[i]))
    else if Live(g, i) then
      var o := g.weak[i];
      var f := g.ifaces[o];
      Acquired(g.(ifaces := g.ifaces[o := f.(uses := f.uses + 1)]),
               c.(held := c.held[i := o]),
               Some(o))
    else
      var g1 := g.(rules := Cleared(g.rules, i, env));
      if i !in env.channels then
        Acquired(g1, c, None)
      else
        var o := g.nextId;
        Acquired(g1.(ifaces := g.ifaces[o := FreshIface(i, env.channels[i])],
                     weak := g.weak[i := o],
                     nextId := o + 1),
                 c.(held := c.held[i := o]),
                 Some(o))
  }

  /** The interface loop of a registration, which stops at the first failure. */
  function AcquireAll(g: Globals, c: Client, ifs: seq<nat>, env: Env): Outcome
    decreases ifs
  {
    if ifs == [] then
      Outcome(g, c.(registered := true), Code(0))
    else
      var a := Acquire(g, c, ifs[0], env);
      if a.obj.None? then Outcome(a.g, a.c, Code(-1)) else AcquireAll(a.g, a.c, ifs[1..], env)
  }

  /** The lowest queue from `q` on that is free, or -1. */
  function LowestFree(q: nat, count: nat, taken: set<nat>): (r: int)
    ensures r == -1 <==> forall x :: q <= x < count ==> x in taken
    ensures r != -1 ==> q <= r < count && r !in taken && forall x :: q <= x < r ==> x in taken
    decreases count - q
  {
    if q >= count then -1
    else if q !in taken then q
    else LowestFree(q + 1, count, taken)
  }

  function Locations(rules: set<Rule>, i: nat): set<nat> {
    set r | r in rules && r.0 == i :: r.1
  }

  /** `rule_size - 1` computed in 32 unsigned bits and stored in a signed 32-bit variable. */
  function LastLocation(size: U32): int {
    var u := (size - 1) % 0x1_0000_0000;
    if u < 0x8000_0000 then u else u - 0x1_0000_0000
  }

  /** The search of `add_flow`: the highest free location from `l` down to 1, else what is left of
      the counter. */
  function HighestFree(l: int, used: set<nat>): (r: int)
    ensures r > 0 ==> r <= l && r !in used && forall x :: r < x <= l ==> x in used
    ensures l >= 0 ==> (r == 0 <==> forall x :: 1 <= x <= l ==> x in used)
    ensures l >= 0 ==> r >= 0
    ensures l < 0 ==> r == l
    decreases l
  {
    if l > 0 && l in used then HighestFree(l - 1, used) else l
  }

  // ---- Messages ----

  /** `get_lcore`, with the client's own record of it. */
  function TakeLcore(g: Globals, c: Client, id: nat): Outcome {
    if id >= MAX_LCORE || id in g.lcores then Outcome(g, c, Code(-1))
    else Outcome(g.(lcores := g.lcores + {id}), c.(lcores := c.lcores + {id}), Code(0))
  }

  /** `put_lcore`, which asks only whether the bit is set. */
  function ReturnLcore(g: Globals, c: Client, id: nat): Outcome {
    if id >= MAX_LCORE || id !in g.lcores then Outcome(g, c, Code(-1))
    else Outcome(g.(lcores := g.lcores - {id}), c.(lcores := c.lcores - {id}), Code(0))
  }

  function UpdateFilter(g: Globals, c: Client, o: nat, port: nat, add: bool): Outcome
    requires o in g.ifaces
  {
    var f := g.ifaces[o];
    var u := Filter.Update(f.filter, Filter.Op(port, add));
    Outcome(g.(ifaces := g.ifaces[o := f.(filter := u.0)]), c, Code(u.1))
  }

  /** `get_queue`; the client records a queue only if its number is positive. */
  function TakeQueue(g: Globals, c: Client, o: nat, i: nat): Outcome
    requires o in g.ifaces
  {
    var f := g.ifaces[o];
    var q := LowestFree(0, f.count, f.taken);
    if q < 0 then Outcome(g, c, Code(-1))
    else Outcome(g.(ifaces := g.ifaces[o := f.(taken := f.taken + {q})]),
                 if q > 0 then c.(queues := c.queues[i := Recorded(c.queues, i) + {q}]) else c,
                 Code(q))
  }

  /** `put_queue`, which asks only whether the queue is taken. */
  function ReturnQueue(g: Globals, c: Client, o: nat, i: nat, q: nat): Outcome
    requires o in g.ifaces
  {
    var f := g.ifaces[o];
    if q >= f.count || q !in f.taken then Outcome(g, c, Code(-1))
    else Outcome(g.(ifaces := g.ifaces[o := f.(taken := f.taken - {q})]),
                 c.(queues := c.queues[i := Recorded(c.queues, i) - {q}]),
                 Code(0))
  }

  /** The location `add_flow` asks the kernel for. */
  function FlowLocation(rules: set<Rule>, i: nat, size: U32): int {
    HighestFree(LastLocation(size), Locations(rules, i))
  }

  /** `add_flow`. A negative location is outside every table, so the kernel refuses it. */
  function InsertFlow(g: Globals, c: Client, i: nat, env: Env): Outcome {
    var l := FlowLocation(g.rules, i, env.tableSize);
    if l <= 0 || !env.insertOk then Outcome(g, c, Code(-1))
    else Outcome(g.(rules := g.rules + {(i, l)}),
                 c.(flows := c.flows[i := Recorded(c.flows, i) + {l}]),
                 Code(l))
  }

  /** `del_flow`, which asks only whether the kernel has the rule. */
  function DeleteFlow(g: Globals, c: Client, i: nat, l: nat, env: Env): Outcome {
    if (i, l) !in g.rules || (i, l) in env.delFails then Outcome(g, c, Code(-1))
    else Outcome(g.(rules := g.rules - {(i, l)}),
                 c.(flows := c.flows[i := Recorded(c.flows, i) - {l}]),
                 Code(0))
  }

  /** The handlers that work on an interface object, once they have it. */
  function OnInterface(g: Globals, c: Client, o: nat, m: Message, env: Env): Outcome
    requires o in g.ifaces
  {
    match m
    case UdpFilter(_, port, add) => UpdateFilter(g, c, o, port, add)
    case GetQueue(i) => TakeQueue(g, c, o, i)
    case PutQueue(i, q) => ReturnQueue(g, c, o, i, q)
    case AddFlow(i) => InsertFlow(g, c, i, env)
    case DelFlow(i, l) => DeleteFlow(g, c, i, l, env)
    case _ => Outcome(g, c, Silent)
  }

  function HandleOn(g: Globals, c: Client, i: nat, m: Message, env: Env): Outcome {
    var a := Acquire(g, c, i, env);
    // The second test is about dangling pointers, which `Coherence` shows never to exist.
    if a.obj.None? || a.obj.value !in a.g.ifaces then
      Outcome(a.g, a.c, if m.XskMapFd? then Silent else Code(-1))
    else
      OnInterface(a.g, a.c, a.obj.value, m, env)
  }

  /** `handle_message`. */
  function Handle(g: Globals, c: Client, m: Message, env: Env): Outcome {
    match m
    case Register(ifs) => AcquireAll(g, c, ifs, env)
    case GetLcore(id) => if c.registered then TakeLcore(g, c, id) else Outcome(g, c, Silent)
    case PutLcore(id) => if c.registered then ReturnLcore(g, c, id) else Outcome(g, c, Silent)
    case XskMapFd(i) => HandleOn(g, c, i, m, env)
    case UdpFilter(i, _, _) => HandleOn(g, c, i, m, env)
    case GetQueue(i) => HandleOn(g, c, i, m, env)
    case PutQueue(i, _) => HandleOn(g, c, i, m, env)
    case AddFlow(i) => HandleOn(g, c, i, m, env)
    case DelFlow(i, _) => HandleOn(g, c, i, m, env)
    case Ignored => Outcome(g, c, Silent)
  }

  // ---- Disconnection ----

  /** The client's pointer for interface `i` leads to object `o`. */
  predicate Holds(c: Client, i: nat, o: nat) {
    i in c.held && c.held[i] == o
  }

  /** The client is the last holder of its pointer to interface `i`. */
  predicate LastHolder(g: Globals, c: Client, i: nat) {
    i in c.held && c.held[i] in g.ifaces && g.ifaces[c.held[i]].uses <= 1
  }

  function IfacesWithout(ifaces: map<nat, Iface>, c: Client): map<nat, Iface> {
    map o | o in ifaces && !(Holds(c, ifaces[o].ifindex, o) && ifaces[o].uses <= 1) ::
      var f := ifaces[o];
      if Holds(c, f.ifindex, o)
      then f.(uses := f.uses - 1, taken := f.taken - Recorded(c.queues, f.ifindex))
      else f
  }

  /** The rules that survive: not deleted one by one as the client's, not cleared with an
      interface it was the last to hold. */
  function RulesWithout(g: Globals, c: Client, env: Env): set<Rule> {
    set r | r in g.rules
         && (r.1 in Recorded(c.flows, r.0) ==> r in env.delFails)
         && !(LastHolder(g, c, r.0) && ClearHits(env, r))
  }

  /** The destructor of a client, with the release of its shared pointers. */
  function Leave(g: Globals, c: Client, env: Env): Globals {
    g.(lcores := g.lcores - c.lcores,
       rules := RulesWithout(g, c, env),
       ifaces := IfacesWithout(g.ifaces, c))
  }

  // ---- Steps and runs ----

  /** The index of the first client with this descriptor, or the number of clients. */
  function Find(cs: seq<Client>, fd: int): (k: nat)
    ensures k <= |cs| && (k < |cs| ==> cs[k].fd == fd)
    ensures forall j :: 0 <= j < k ==> cs[j].fd != fd
  {
    if cs == [] then 0 else if cs[0].fd == fd then 0 else 1 + Find(cs[1..], fd)
  }

  function Without(cs: seq<Client>, k: nat): seq<Client>
    requires k < |cs|
  {
    cs[..k] + cs[k + 1..]
  }

  function NewClient(fd: int): Client {
    Client(fd, false, {}, map[], map[], map[])
  }

  function Step(s: State, e: Event): State {
    match e
    case Accept(fd) => s.(clients := s.clients + [NewClient(fd)])
    case Deliver(fd, m, env) =>
      var k := Find(s.clients, fd);
      if k == |s.clients| then s
      else
        var r := Handle(s.g, s.clients[k], m, env);
        State(r.g, s.clients[k := r.c])
    case Close(fd, env) =>
      var k := Find(s.clients, fd);
      if k == |s.clients| then s
      else State(Leave(s.g, s.clients[k], env), Without(s.clients, k))
  }

  /** What the daemon answers to `e`. */
  function ReplyTo(s: State, e: Event): Reply {
    if e.Deliver? && Find(s.clients, e.fd) < |s.clients|
    then Handle(s.g, s.clients[Find(s.clients, e.fd)], e.msg, e.env).reply
    else Silent
  }

  /** The daemon at start-up; the kernel's flow tables may hold anything. */
  function Init(rules: set<Rule>): State {
    State(Globals({}, rules, map[], map[], 0), [])
  }

  function Exec(s: State, es: seq<Event>): State {
    if es == [] then s else Step(Exec(s, es[..|es| - 1]), es[|es| - 1])
  }

  lemma ExecNext(s: State, es: seq<Event>, n: nat)
    requires n < |es|
    ensures Exec(s, es[..n + 1]) == Step(Exec(s, es[..n]), es[n])
  {
    assert es[..n + 1][..n] == es[..n];
  }
}
