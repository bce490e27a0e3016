/** Rules in the kernel's flow tables that no client records. The daemon never makes one while the
    kernel deletes what a leaving client asks it to, but it starts with whatever is in the tables,
    and a clear removes only one rule. Here is exactly how they come and go. */
module Strays {
  import opened ManagerModel
  import opened Coherence
  import opened NoLeak
  import opened Exclusivity

  ghost predicate FlowRecorded(cs: seq<Client>, r: Rule) {
    exists k :: 0 <= k < |cs| && r.1 in Recorded(cs[k].flows, r.0)
  }

  ghost predicate Stray(s: State, r: Rule) {
    r in s.g.rules && !FlowRecorded(s.clients, r)
  }

  ghost function StraysOf(s: State): set<Rule> {
    set r | r in s.g.rules && !FlowRecorded(s.clients, r)
  }

  // ---- What a clear does ----

  /** The kernel lists the table as it is, and can delete from it. */
  ghost predicate ListsTable(env: Env, table: set<nat>, i: nat) {
    && i in env.listed && (forall l :: l in env.listed[i] <==> l in table)
    && (forall l :: (i, l) !in env.clearFails)
  }

  lemma EmptyListing(env: Env, table: set<nat>, i: nat)
    requires ListsTable(env, table, i) && env.listed[i] == []
    ensures table == {}
  {
    forall l ensures l !in table { assert l in env.listed[i] <==> l in table; }
  }

  function LessOne(n: nat): nat { if n == 0 then 0 else n - 1 }

  lemma InLocations(rules: set<Rule>, i: nat, l: nat)
    ensures l in Locations(rules, i) <==> (i, l) in rules
  {
    if (i, l) in rules { assert (i, l).1 in Locations(rules, i); }
  }

  /** With a kernel that does as asked, a clear takes one rule away, so it empties a table exactly if
      there was no more than one. */
  lemma ClearEmptiesIff(rules: set<Rule>, i: nat, env: Env)
    requires ListsTable(env, Locations(rules, i), i)
    ensures |Locations(Cleared(rules, i, env), i)| == LessOne(|Locations(rules, i)|)
    ensures Locations(Cleared(rules, i, env), i) == {} <==> |Locations(rules, i)| <= 1
  {
    var table := Locations(rules, i);
    if env.listed[i] == [] {
      EmptyListing(env, table, i);
      assert Cleared(rules, i, env) == rules;
    } else {
      var first := env.listed[i][0];
      assert first in table;
      forall l: nat ensures l in Locations(Cleared(rules, i, env), i) <==> l in table - {first} {
        InLocations(rules, i, l);
        InLocations(Cleared(rules, i, env), i, l);
      }
      assert Locations(Cleared(rules, i, env), i) == table - {first};
    }
  }

  // ---- Which events clear, delete and abandon ----

  /** Getting the interface means building it, and that starts with a clear. */
  predicate Builds(g: Globals, c: Client, i: nat) {
    i !in c.held && !Live(g, i)
  }

  /** The loop of a registration gets to interface `i`. */
  predicate Reaches(g: Globals, c: Client, ifs: seq<nat>, env: Env, i: nat)
    decreases ifs
  {
    ifs != [] && (ifs[0] == i || (CanAcquire(g, c, ifs[0], env) && Reaches(g, c, ifs[1..], env, i)))
  }

  /** Handling the message includes a request for interface `i`. */
  predicate Requests(g: Globals, c: Client, m: Message, env: Env, i: nat) {
    match m
    case Register(ifs) => Reaches(g, c, ifs, env, i)
    case XskMapFd(p) => p == i
    case UdpFilter(p, _, _) => p == i
    case GetQueue(p) => p == i
    case PutQueue(p, _) => p == i
    case AddFlow(p) => p == i
    case DelFlow(p, _) => p == i
    case _ => false
  }

  /** The event makes the daemon clear the table of interface `i`. */
  predicate Clears(s: State, e: Event, i: nat) {
    && !e.Accept?
    && var k := Find(s.clients, e.fd);
       && k < |s.clients|
       && if e.Deliver? then Requests(s.g, s.clients[k], e.msg, e.env, i) && Builds(s.g, s.clients[k], i)
          else LastHolder(s.g, s.clients[k], i)
  }

  /** The event is a client's request to delete the rule, and the kernel does not refuse. */
  predicate Deletes(s: State, e: Event, r: Rule) {
    && e.Deliver? && e.msg == DelFlow(r.0, r.1) && r !in e.env.delFails
    && var k := Find(s.clients, e.fd);
       k < |s.clients| && CanAcquire(s.g, s.clients[k], r.0, e.env)
  }

  /** The event is the disconnection of the only client that records the rule, and the kernel does
      not delete it. */
  ghost predicate Abandons(s: State, e: Event, r: Rule) {
    && e.Close? && r in s.g.rules && r in e.env.delFails
    && var k := Find(s.clients, e.fd);
       && k < |s.clients| && r.1 in Recorded(s.clients[k].flows, r.0)
       && !Other(s.clients, k, Flow(r.0, r.1))
  }

  // ---- Messages ----

  lemma RecordedAfter(cs: seq<Client>, k: nat, c: Client, r: Rule)
    requires k < |cs|
    ensures FlowRecorded(cs[k := c], r) <==> Other(cs, k, Flow(r.0, r.1)) || r.1 in Recorded(c.flows, r.0)
    ensures FlowRecorded(cs, r) <==> Other(cs, k, Flow(r.0, r.1)) || r.1 in Recorded(cs[k].flows, r.0)
  {
    var ds := cs[k := c];
    if j :| 0 <= j < |cs| && j != k && Records(cs[j], Flow(r.0, r.1)) {
      assert r.1 in Recorded(ds[j].flows, r.0) && r.1 in Recorded(cs[j].flows, r.0);
    }
    if j :| 0 <= j < |ds| && j != k && r.1 in Recorded(ds[j].flows, r.0) {
      assert Records(cs[j], Flow(r.0, r.1));
    }
    if j :| 0 <= j < |cs| && j != k && r.1 in Recorded(cs[j].flows, r.0) {
      assert Records(cs[j], Flow(r.0, r.1));
    }
    assert ds[k] == c;
  }

  lemma AcquireStrays(s: State, k: nat, i: nat, env: Env, r: Rule)
    requires k < |s.clients|
    ensures var a := Acquire(s.g, s.clients[k], i, env);
            Stray(State(a.g, s.clients[k := a.c]), r) <==>
            Stray(s, r) && !(i == r.0 && Builds(s.g, s.clients[k], i) && ClearHits(env, r))
  {
    RecordedAfter(s.clients, k, Acquire(s.g, s.clients[k], i, env).c, r);
  }

  /** Acquiring one interface does not change how another one will be acquired. */
  lemma AcquireIsLocal(s: State, k: nat, p: nat, env: Env, i: nat)
    requires Coherent(s) && k < |s.clients|
    ensures var a := Acquire(s.g, s.clients[k], p, env);
            && (CanAcquire(a.g, a.c, i, env) <==> CanAcquire(s.g, s.clients[k], i, env))
            && (Builds(a.g, a.c, i) <==> Builds(s.g, s.clients[k], i) && !(i == p && a.obj.Some?))
            && (a.obj.Some? <==> CanAcquire(s.g, s.clients[k], p, env))
  {
    assert ClientOk(s.g, s.clients[k]);
  }

  lemma {:induction false} ReachesAfter(s: State, k: nat, p: nat, ifs: seq<nat>, env: Env, i: nat)
    requires Coherent(s) && k < |s.clients|
    ensures var a := Acquire(s.g, s.clients[k], p, env);
            Reaches(a.g, a.c, ifs, env, i) <==> Reaches(s.g, s.clients[k], ifs, env, i)
    decreases ifs
  {
    if ifs != [] {
      AcquireIsLocal(s, k, p, env, ifs[0]);
      ReachesAfter(s, k, p, ifs[1..], env, i);
    }
  }

  lemma {:induction false} AcquireAllStrays(s: State, k: nat, ifs: seq<nat>, env: Env, r: Rule)
    requires Coherent(s) && k < |s.clients|
    ensures var x := AcquireAll(s.g, s.clients[k], ifs, env);
            Stray(State(x.g, s.clients[k := x.c]), r) <==>
            Stray(s, r) && !(Reaches(s.g, s.clients[k], ifs, env, r.0)
                             && Builds(s.g, s.clients[k], r.0) && ClearHits(env, r))
    decreases ifs
  {
    var c := s.clients[k];
    if ifs == [] {
      RecordedAfter(s.clients, k, c.(registered := true), r);
    } else {
      var a := Acquire(s.g, c, ifs[0], env);
      AcquireStrays(s, k, ifs[0], env, r);
      AcquireIsLocal(s, k, ifs[0], env, r.0);
      AcquireIsLocal(s, k, ifs[0], env, ifs[0]);
      if a.obj.Some? {
        var s1 := State(a.g, s.clients[k := a.c]);
        AcquireIsCoherent(s, k, ifs[0], env);
        ReachesAfter(s, k, ifs[0], ifs[1..], env, r.0);
        AcquireAllStrays(s1, k, ifs[1..], env, r);
        var x := AcquireAll(a.g, a.c, ifs[1..], env);
        assert AcquireAll(s.g, c, ifs, env) == x && s1.clients[k := x.c] == s.clients[k := x.c];
      }
    }
  }

  lemma OnInterfaceStrays(s: State, k: nat, i: nat, o: nat, m: Message, env: Env, r: Rule)
    requires Serves(s, k, i, o) && Names(m, i)
    ensures var x := OnInterface(s.g, s.clients[k], o, m, env);
            Stray(State(x.g, s.clients[k := x.c]), r) <==>
            Stray(s, r) && !(m == DelFlow(r.0, r.1) && r !in env.delFails)
  {
    RecordedAfter(s.clients, k, OnInterface(s.g, s.clients[k], o, m, env).c, r);
    if m.AddFlow? { InLocations(s.g.rules, r.0, r.1); }
  }

  lemma HandleOnStrays(s: State, k: nat, i: nat, m: Message, env: Env, r: Rule)
    requires Coherent(s) && k < |s.clients| && Names(m, i)
    ensures var x := HandleOn(s.g, s.clients[k], i, m, env);
            Stray(State(x.g, s.clients[k := x.c]), r) <==>
            && Stray(s, r)
            && !(i == r.0 && Builds(s.g, s.clients[k], i) && ClearHits(env, r))
            && !(m == DelFlow(r.0, r.1) && CanAcquire(s.g, s.clients[k], r.0, env) && r !in env.delFails)
  {
    var a := Acquire(s.g, s.clients[k], i, env);
    AcquireIsCoherent(s, k, i, env);
    AcquireStrays(s, k, i, env, r);
    AcquireIsLocal(s, k, i, env, i);
    if a.obj.Some? {
      var s1 := State(a.g, s.clients[k := a.c]);
      OnInterfaceStrays(s1, k, i, a.obj.value, m, env, r);
      var x := OnInterface(a.g, a.c, a.obj.value, m, env);
      assert s1.clients[k := x.c] == s.clients[k := x.c];
    }
  }

  lemma HandleStrays(s: State, k: nat, m: Message, env: Env, r: Rule)
    requires Coherent(s) && k < |s.clients|
    ensures var x := Handle(s.g, s.clients[k], m, env);
            Stray(State(x.g, s.clients[k := x.c]), r) <==>
            && Stray(s, r)
            && !(Requests(s.g, s.clients[k], m, env, r.0) && Builds(s.g, s.clients[k], r.0) && ClearHits(env, r))
            && !(m == DelFlow(r.0, r.1) && CanAcquire(s.g, s.clients[k], r.0, env) && r !in env.delFails)
  {
    match m
    case Register(ifs) => AcquireAllStrays(s, k, ifs, env, r);
    case GetLcore(_) => RecordedAfter(s.clients, k, Handle(s.g, s.clients[k], m, env).c, r);
    case PutLcore(_) => RecordedAfter(s.clients, k, Handle(s.g, s.clients[k], m, env).c, r);
    case Ignored => assert s.clients[k := s.clients[k]] == s.clients;
    case XskMapFd(i) => HandleOnStrays(s, k, i, m, env, r);
    case UdpFilter(i, _, _) => HandleOnStrays(s, k, i, m, env, r);
    case GetQueue(i) => HandleOnStrays(s, k, i, m, env, r);
    case PutQueue(i, _) => HandleOnStrays(s, k, i, m, env, r);
    case AddFlow(i) => HandleOnStrays(s, k, i, m, env, r);
    case DelFlow(i, _) => HandleOnStrays(s, k, i, m, env, r);
  }

  lemma LeaveStrays(s: State, k: nat, env: Env, r: Rule)
    requires k < |s.clients|
    ensures var c := s.clients[k];
            Stray(State(Leave(s.g, c, env), Without(s.clients, k)), r) <==>
            && r in s.g.rules && !Other(s.clients, k, Flow(r.0, r.1))
            && (r.1 in Recorded(c.flows, r.0) ==> r in env.delFails)
            && !(LastHolder(s.g, c, r.0) && ClearHits(env, r))
  {
    var rest := Without(s.clients, k);
    assert forall j :: 0 <= j < |rest| ==> rest[j] == s.clients[if j < k then j else j + 1];
    if j :| 0 <= j < |s.clients| && j != k && Records(s.clients[j], Flow(r.0, r.1)) {
      assert r.1 in Recorded(rest[if j < k then j else j - 1].flows, r.0);
    }
    if j :| 0 <= j < |rest| && r.1 in Recorded(rest[j].flows, r.0) {
      assert Records(s.clients[if j < k then j else j + 1], Flow(r.0, r.1));
    }
  }

  lemma AcceptStrays(s: State, fd: int, r: Rule)
    ensures Stray(Step(s, Accept(fd)), r) <==> Stray(s, r)
  {
    var cs := s.clients + [NewClient(fd)];
    if j :| 0 <= j < |s.clients| && r.1 in Recorded(s.clients[j].flows, r.0) {
      assert r.1 in Recorded(cs[j].flows, r.0);
    }
  }

  // ---- Steps and runs ----

  /** Exactly which rules are stray after a step, whatever clients and kernel do. */
  lemma StepStrays(s: State, e: Event, r: Rule)
    requires Coherent(s)
    ensures Stray(Step(s, e), r) <==>
            && (Stray(s, r) || Abandons(s, e, r))
            && !(Clears(s, e, r.0) && ClearHits(e.env, r))
            && !Deletes(s, e, r)
  {
    match e
    case Accept(fd) => AcceptStrays(s, fd, r);
    case Deliver(fd, m, env) =>
      if Find(s.clients, fd) < |s.clients| { HandleStrays(s, Find(s.clients, fd), m, env, r); }
    case Close(fd, env) =>
      var k := Find(s.clients, fd);
      if k < |s.clients| {
        LeaveStrays(s, k, env, r);
        RecordedAfter(s.clients, k, s.clients[k], r);
      }
  }

  /** The kernel deletes what a leaving client has it delete. */
  predicate DeletesWork(e: Event) {
    e.Close? ==> e.env.delFails == {}
  }

  ghost predicate AllDeletesWork(es: seq<Event>) {
    es == [] || (AllDeletesWork(es[..|es| - 1]) && DeletesWork(es[|es| - 1]))
  }

  /** If deletions at disconnection work, the daemon leaves no rule of its own behind: every rule is
      recorded by a connected client, or was in the tables before the daemon started. */
  lemma {:induction false} StraysAreOld(rules: set<Rule>, es: seq<Event>, r: Rule)
    requires AllDeletesWork(es) && Stray(Exec(Init(rules), es), r)
    ensures r in rules
  {
    if es != [] {
      var init := es[..|es| - 1];
      RunsAreCoherent(rules, init);
      StepStrays(Exec(Init(rules), init), es[|es| - 1], r);
      StraysAreOld(rules, init, r);
    }
  }

  // ---- Counting them down ----

  ghost function StraysOn(s: State, i: nat): set<nat> {
    Locations(StraysOf(s), i)
  }

  lemma InStraysOn(s: State, i: nat, l: nat)
    ensures l in StraysOn(s, i) <==> Stray(s, (i, l))
  {
    InLocations(StraysOf(s), i, l);
  }

  /** The table of interface `i` when the event comes to clear it: a disconnection first deletes the
      leaver's own rules. */
  ghost function TableAtClear(s: State, e: Event, i: nat): set<nat>
    requires Clears(s, e, i)
  {
    if e.Deliver? then Locations(s.g.rules, i) else
    var c := s.clients[Find(s.clients, e.fd)];
    Locations(WithoutOwn(s.g.rules, c, e.env), i)
  }

  function WithoutOwn(rules: set<Rule>, c: Client, env: Env): set<Rule> {
    set r | r in rules && (r.1 in Recorded(c.flows, r.0) ==> r in env.delFails)
  }

  ghost predicate ListsTruly(s: State, e: Event, i: nat) {
    Clears(s, e, i) ==> ListsTable(e.env, TableAtClear(s, e, i), i)
  }

  /** A table being cleared holds nothing but strays. */
  lemma ClearsOnlyStrays(s: State, e: Event, i: nat)
    requires Coherent(s) && Clears(s, e, i) && DeletesWork(e)
    ensures TableAtClear(s, e, i) == StraysOn(s, i)
  {
    forall l: nat ensures l in TableAtClear(s, e, i) <==> l in StraysOn(s, i) {
      InStraysOn(s, i, l);
      var k := Find(s.clients, e.fd);
      RecordedAfter(s.clients, k, s.clients[k], (i, l));
      NobodyElseRecords(s, e, i, l);
      if e.Deliver? {
        InLocations(s.g.rules, i, l);
      } else {
        InLocations(WithoutOwn(s.g.rules, s.clients[k], e.env), i, l);
      }
    }
  }

  lemma NobodyElseRecords(s: State, e: Event, i: nat, l: nat)
    requires Coherent(s) && Clears(s, e, i)
    ensures var k := Find(s.clients, e.fd);
            !Other(s.clients, k, Flow(i, l)) && (e.Deliver? ==> l !in Recorded(s.clients[k].flows, i))
  {
    var k := Find(s.clients, e.fd);
    assert ClientOk(s.g, s.clients[k]);
    if e.Close? { LastHolderIff(s, k, i); }
    forall j | 0 <= j < |s.clients| && j != k ensures !Records(s.clients[j], Flow(i, l)) {
      assert ClientOk(s.g, s.clients[j]);
    }
  }

  /** No client deletes a stray rule of interface `i` in this step. */
  ghost predicate SparesStrays(s: State, e: Event, i: nat) {
    forall l :: Deletes(s, e, (i, l)) ==> !Stray(s, (i, l))
  }

  /** What a step leaves of the strays of an interface, apart from clients' deletions. */
  ghost function AfterClear(s: State, e: Event, i: nat): set<nat> {
    if Clears(s, e, i) && i in e.env.listed && e.env.listed[i] != [] && (i, e.env.listed[i][0]) !in e.env.clearFails
    then StraysOn(s, i) - {e.env.listed[i][0]} else StraysOn(s, i)
  }

  lemma StepStraysOn(s: State, e: Event, i: nat)
    requires Coherent(s) && DeletesWork(e)
    ensures StraysOn(Step(s, e), i) <= AfterClear(s, e, i)
    ensures SparesStrays(s, e, i) ==> StraysOn(Step(s, e), i) == AfterClear(s, e, i)
  {
    forall l: nat
      ensures l in StraysOn(Step(s, e), i) <==> l in AfterClear(s, e, i) && !Deletes(s, e, (i, l))
      ensures l in AfterClear(s, e, i) ==> Stray(s, (i, l))
    {
      StepStrays(s, e, (i, l));
      InStraysOn(s, i, l);
      InStraysOn(Step(s, e), i, l);
    }
  }

  lemma AfterClearSize(s: State, e: Event, i: nat)
    requires Coherent(s) && DeletesWork(e) && ListsTruly(s, e, i)
    ensures |AfterClear(s, e, i)| == (if Clears(s, e, i) then LessOne(|StraysOn(s, i)|) else |StraysOn(s, i)|)
  {
    if Clears(s, e, i) {
      ClearsOnlyStrays(s, e, i);
      if e.env.listed[i] == [] {
        EmptyListing(e.env, StraysOn(s, i), i);
      } else {
        assert e.env.listed[i][0] in StraysOn(s, i);
      }
    }
  }

  /** Clears of interface `i` in a run: each time it is built, or fails to be, and each time it is torn
      down. */
  function ClearCount(s: State, es: seq<Event>, i: nat): nat {
    if es == [] then 0 else
    var init := es[..|es| - 1];
    ClearCount(s, init, i) + (if Clears(Exec(s, init), es[|es| - 1], i) then 1 else 0)
  }

  ghost predicate AllListTruly(s: State, es: seq<Event>, i: nat) {
    es == [] || (AllListTruly(s, es[..|es| - 1], i) && ListsTruly(Exec(s, es[..|es| - 1]), es[|es| - 1], i))
  }

  ghost predicate AllSpareStrays(s: State, es: seq<Event>, i: nat) {
    es == [] || (AllSpareStrays(s, es[..|es| - 1], i) && SparesStrays(Exec(s, es[..|es| - 1]), es[|es| - 1], i))
  }

  function Minus(n: nat, m: nat): nat { if n < m then 0 else n - m }

  /** With a kernel that does as asked, each clear takes one of the old rules of an interface. So many
      are left, and fewer only if clients delete some that are not theirs. */
  lemma {:induction false} StraysCountDown(rules: set<Rule>, es: seq<Event>, i: nat)
    requires AllDeletesWork(es) && AllListTruly(Init(rules), es, i)
    ensures |StraysOn(Exec(Init(rules), es), i)| <= Minus(|Locations(rules, i)|, ClearCount(Init(rules), es, i))
    ensures AllSpareStrays(Init(rules), es, i) ==>
              |StraysOn(Exec(Init(rules), es), i)| == Minus(|Locations(rules, i)|, ClearCount(Init(rules), es, i))
  {
    if es == [] {
      assert StraysOf(Init(rules)) == rules;
    } else {
      var init, e := es[..|es| - 1], es[|es| - 1];
      var s := Exec(Init(rules), init);
      StraysCountDown(rules, init, i);
      RunsAreCoherent(rules, init);
      StepStraysOn(s, e, i);
      AfterClearSize(s, e, i);
      SmallerSet(StraysOn(Step(s, e), i), AfterClear(s, e, i));
    }
  }

  lemma {:induction false} SmallerSet(a: set<nat>, b: set<nat>)
    requires a <= b
    ensures |a| <= |b|
    decreases a
  {
    if a != {} {
      var x :| x in a;
      SmallerSet(a - {x}, b - {x});
    }
  }

  /** An interface that was ever opened was cleared. */
  lemma {:induction false} OpenedMeansCleared(rules: set<Rule>, es: seq<Event>, i: nat)
    requires i in Exec(Init(rules), es).g.weak
    ensures ClearCount(Init(rules), es, i) > 0
  {
    if es != [] {
      var init, e := es[..|es| - 1], es[|es| - 1];
      var s := Exec(Init(rules), init);
      if i in s.g.weak {
        OpenedMeansCleared(rules, init, i);
      } else if e.Deliver? && Find(s.clients, e.fd) < |s.clients| {
        RunsAreCoherent(rules, init);
        HandleOpens(s, Find(s.clients, e.fd), e.msg, e.env, i);
      }
    }
  }

  lemma {:induction false} AcquireAllOpens(s: State, k: nat, ifs: seq<nat>, env: Env, i: nat)
    requires Coherent(s) && k < |s.clients| && i !in s.g.weak
    requires i in AcquireAll(s.g, s.clients[k], ifs, env).g.weak
    ensures Reaches(s.g, s.clients[k], ifs, env, i)
    decreases ifs
  {
    if ifs != [] && ifs[0] != i {
      var a := Acquire(s.g, s.clients[k], ifs[0], env);
      AcquireIsCoherent(s, k, ifs[0], env);
      AcquireIsLocal(s, k, ifs[0], env, ifs[0]);
      ReachesAfter(s, k, ifs[0], ifs[1..], env, i);
      if a.obj.Some? { AcquireAllOpens(State(a.g, s.clients[k := a.c]), k, ifs[1..], env, i); }
    }
  }

  lemma HandleOnOpens(g: Globals, c: Client, p: nat, m: Message, env: Env, i: nat)
    requires i !in g.weak && i in HandleOn(g, c, p, m, env).g.weak
    ensures p == i
  {
  }

  lemma HandleOpens(s: State, k: nat, m: Message, env: Env, i: nat)
    requires Coherent(s) && k < |s.clients| && i !in s.g.weak && i in Handle(s.g, s.clients[k], m, env).g.weak
    ensures Requests(s.g, s.clients[k], m, env, i) && Builds(s.g, s.clients[k], i)
  {
    assert ClientOk(s.g, s.clients[k]);
    match m
    case Register(ifs) => AcquireAllOpens(s, k, ifs, env, i);
    case GetLcore(_) =>
    case PutLcore(_) =>
    case Ignored =>
    case XskMapFd(p) => HandleOnOpens(s.g, s.clients[k], p, m, env, i);
    case UdpFilter(p, _, _) => HandleOnOpens(s.g, s.clients[k], p, m, env, i);
    case GetQueue(p) => HandleOnOpens(s.g, s.clients[k], p, m, env, i);
    case PutQueue(p, _) => HandleOnOpens(s.g, s.clients[k], p, m, env, i);
    case AddFlow(p) => HandleOnOpens(s.g, s.clients[k], p, m, env, i);
    case DelFlow(p, _) => HandleOnOpens(s.g, s.clients[k], p, m, env, i);
  }

  /** When the table of an interface that was ever opened is all the clients': with a kernel that does
      as asked it is so if it started with no more than one rule, and if no client deletes rules that
      are not recorded, exactly if it started with no more rules than it was cleared times. */
  lemma NoStraysIff(rules: set<Rule>, es: seq<Event>, i: nat)
    requires AllDeletesWork(es) && AllListTruly(Init(rules), es, i)
    ensures i in Exec(Init(rules), es).g.weak && |Locations(rules, i)| <= 1 ==> StraysOn(Exec(Init(rules), es), i) == {}
    ensures AllSpareStrays(Init(rules), es, i) ==>
              (StraysOn(Exec(Init(rules), es), i) == {} <==>
               |Locations(rules, i)| <= ClearCount(Init(rules), es, i))
  {
    StraysCountDown(rules, es, i);
    if i in Exec(Init(rules), es).g.weak { OpenedMeansCleared(rules, es, i); }
  }

  /** When all clients have gone, what is left in the tables was there before, and of the rules of each
      interface at most as many as it was not cleared. */
  lemma OnlyOldRulesLeft(rules: set<Rule>, es: seq<Event>)
    requires AllDeletesWork(es) && Exec(Init(rules), es).clients == []
    ensures Exec(Init(rules), es).g.rules <= rules
    ensures forall i :: AllListTruly(Init(rules), es, i) ==>
              |Locations(Exec(Init(rules), es).g.rules, i)|
              <= Minus(|Locations(rules, i)|, ClearCount(Init(rules), es, i))
  {
    var s := Exec(Init(rules), es);
    assert StraysOf(s) == s.g.rules;
    forall r | r in s.g.rules ensures r in rules { StraysAreOld(rules, es, r); }
    forall i | AllListTruly(Init(rules), es, i)
      ensures |Locations(s.g.rules, i)| <= Minus(|Locations(rules, i)|, ClearCount(Init(rules), es, i))
    {
      StraysCountDown(rules, es, i);
    }
  }

  /** A table of two rules, of which opening the interface clears one; nobody records the other. */
  lemma ClearLeavesOne(env: Env)
    requires 1 in env.channels && env.listed == map[1 := [8, 9]] && env.clearFails == {}
    ensures var s := Exec(Init({(1, 8), (1, 9)}), [Accept(1), Deliver(1, XskMapFd(1), env)]);
            s.g.rules == {(1, 9)} && Live(s.g, 1) && Stray(s, (1, 9))
  {
    var s0 := Init({(1, 8), (1, 9)});
    var es := [Accept(1), Deliver(1, XskMapFd(1), env)];
    assert es[..1] == [Accept(1)] && [Accept(1)][..0] == [];
    var s1 := Exec(s0, es[..1]);
    assert s1 == State(s0.g, [NewClient(1)]);
    assert Find(s1.clients, 1) == 0;
    var x := HandleOn(s1.g, NewClient(1), 1, XskMapFd(1), env);
    assert Exec(s0, es) == State(x.g, [x.c]);
    assert x.g.rules == {(1, 9)} && x.c.flows == map[];
  }
}
