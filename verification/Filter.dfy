/** The UDP destination-port filter of one interface: the reference counts the manager keeps
    and the BPF hash map they are mirrored into, which the XDP program reads for each packet. */
module Filter {

  /** `max_entries` of the `udp4_dp_filter` hash map. */
  const MAX_FILTERS: nat := 256

  /** One `update_udp_dp_filter` call. */
  datatype Op = Op(port: nat, add: bool)

  /** `refcnt` is the manager's own count, `ports` the BPF map. */
  datatype Table = Table(refcnt: map<nat, int>, ports: map<nat, nat>)

  const EMPTY: Table := Table(map[], map[])

  function Refs(t: Table, p: nat): int {
    if p in t.refcnt then t.refcnt[p] else 0
  }

  /** `lookup_udp4_dp`: a missing key and a zero value both mean "not filtered". */
  predicate Enabled(ports: map<nat, nat>, p: nat) {
    p in ports && ports[p] != 0
  }

  /** A hash map takes a new key only while it has room; an existing key can always be rewritten. */
  predicate HasRoom(ports: map<nat, nat>, p: nat) {
    p in ports || |ports| < MAX_FILTERS
  }

  /** The table and return value of `update_udp_dp_filter`. The count moves even if the map
      update then fails, and removing a port writes a zero instead of deleting its entry. */
  function Update(t: Table, op: Op): (Table, int) {
    var n := Refs(t, op.port) + (if op.add then 1 else -1);
    var counted := t.(refcnt := t.refcnt[op.port := n]);
    if (op.add && n > 1) || (!op.add && n > 0) then
      (counted, 0)
    else if HasRoom(t.ports, op.port) then
      (counted.(ports := t.ports[op.port := if op.add then 1 else 0]), 0)
    else
      (counted, -1)
  }

  function Run(ops: seq<Op>): Table {
    if ops == [] then EMPTY else Update(Run(ops[..|ops| - 1]), ops[|ops| - 1]).0
  }

  // ---- The reference: plain counting over the history of calls ----

  /** Adds minus deletes of port `p`. */
  function Net(ops: seq<Op>, p: nat): int {
    if ops == [] then 0
    else
      var last := ops[|ops| - 1];
      Net(ops[..|ops| - 1], p) + (if last.port != p then 0 else if last.add then 1 else -1)
  }

  /** Whether the most recent call that names `p` is an add. */
  predicate LastIsAdd(ops: seq<Op>, p: nat) {
    ops != [] &&
    var last := ops[|ops| - 1];
    if last.port == p then last.add else LastIsAdd(ops[..|ops| - 1], p)
  }

  /** Every port ever named. */
  function Named(ops: seq<Op>): set<nat> {
    set k | 0 <= k < |ops| :: ops[k].port
  }

  lemma NamedInit(ops: seq<Op>)
    requires ops != []
    ensures Named(ops) == Named(ops[..|ops| - 1]) + {ops[|ops| - 1].port}
  {
    var init := ops[..|ops| - 1];
    forall p | p in Named(ops) ensures p in Named(init) + {ops[|ops| - 1].port} {
      var k :| 0 <= k < |ops| && ops[k].port == p;
      assert k < |init| ==> init[k].port == p;
    }
    forall p | p in Named(init) ensures p in Named(ops) {
      var k :| 0 <= k < |init| && init[k].port == p;
      assert ops[k].port == p;
    }
    assert ops[|ops| - 1].port in Named(ops);
  }

  /** The manager's count is the plain count on every history, whatever the map does. */
  lemma {:induction false} RefsIsNet(ops: seq<Op>, p: nat)
    ensures Refs(Run(ops), p) == Net(ops, p)
  {
    if ops != [] {
      RefsIsNet(ops[..|ops| - 1], p);
    }
  }

  lemma NetOfUnnamed(ops: seq<Op>, p: nat)
    requires p !in Named(ops)
    ensures Net(ops, p) == 0 && !LastIsAdd(ops, p)
  {
    if ops != [] {
      NamedInit(ops);
      NetOfUnnamed(ops[..|ops| - 1], p);
    }
  }

  // ---- Which ports get an entry in the map ----

  /** The first 256 distinct ports of a history. */
  function FirstNamed(ops: seq<Op>): set<nat> {
    if ops == [] then {}
    else
      var first := FirstNamed(ops[..|ops| - 1]);
      if |first| < MAX_FILTERS then first + {ops[|ops| - 1].port} else first
  }

  lemma {:induction false} FirstAreNamed(ops: seq<Op>)
    ensures FirstNamed(ops) <= Named(ops) && |FirstNamed(ops)| <= 256
    ensures |FirstNamed(ops)| < 256 ==> FirstNamed(ops) == Named(ops)
  {
    if ops != [] {
      FirstAreNamed(ops[..|ops| - 1]);
      NamedInit(ops);
    }
  }

  /** All ports fit exactly when there are no more than 256. */
  lemma FirstIsAllIff(ops: seq<Op>)
    ensures FirstNamed(ops) == Named(ops) <==> |Named(ops)| <= 256
  {
    FirstAreNamed(ops);
    if |Named(ops)| <= MAX_FILTERS && FirstNamed(ops) != Named(ops) {
      var p :| p in Named(ops) && p !in FirstNamed(ops);
      SubsetIsSmaller(FirstNamed(ops) + {p}, Named(ops));
    }
  }

  lemma {:induction false} SubsetIsSmaller<T>(a: set<T>, b: set<T>)
    requires a <= b
    ensures |a| <= |b|
    decreases a
  {
    if a != {} {
      var x :| x in a;
      SubsetIsSmaller(a - {x}, b - {x});
    }
  }

  /** Entries are made for the first 256 ports that are named, and never go away. */
  lemma {:induction false} EntriesAreFirst(ops: seq<Op>)
    ensures Run(ops).ports.Keys == FirstNamed(ops)
  {
    if ops != [] {
      var init, p := ops[..|ops| - 1], ops[|ops| - 1].port;
      EntriesAreFirst(init);
      FirstAreNamed(init);
      RefsIsNet(init, p);
      assert |Run(init).ports| == |Run(init).ports.Keys|;
      if p !in FirstNamed(init) && |FirstNamed(init)| < MAX_FILTERS {
        NetOfUnnamed(init, p);
      }
    }
  }

  /** The exact content of the BPF map after any history, balanced or not: a port is enabled iff it
      is among the first 256 and its net count is positive or its last call added it. */
  lemma {:induction false} EnabledExactly(ops: seq<Op>, p: nat)
    ensures Enabled(Run(ops).ports, p) <==>
            p in FirstNamed(ops) && (Net(ops, p) > 0 || LastIsAdd(ops, p))
  {
    if ops != [] {
      var init, last := ops[..|ops| - 1], ops[|ops| - 1];
      EnabledExactly(init, p);
      EntriesAreFirst(init);
      EntriesAreFirst(ops);
      RefsIsNet(init, p);
    }
  }

  /** The half that needs no balance: a positive count is enabled in the map if it has an entry. */
  lemma PositiveCountIsEnabled(ops: seq<Op>, p: nat)
    requires Refs(Run(ops), p) > 0
    ensures Enabled(Run(ops).ports, p) <==> p in FirstNamed(ops)
    ensures |Named(ops)| <= 256 ==> Enabled(Run(ops).ports, p)
  {
    EnabledExactly(ops, p);
    RefsIsNet(ops, p);
    FirstIsAllIff(ops);
    if p !in Named(ops) { NetOfUnnamed(ops, p); }
  }

  // ---- When calls fail ----

  /** Every call of the history reports success. */
  ghost predicate AllAccepted(ops: seq<Op>) {
    ops != [] ==>
      AllAccepted(ops[..|ops| - 1]) && Update(Run(ops[..|ops| - 1]), ops[|ops| - 1]).1 == 0
  }

  /** No call of a history is refused exactly when it names no more than 256 ports. */
  lemma {:induction false} AllAcceptedIff(ops: seq<Op>)
    ensures AllAccepted(ops) <==> |Named(ops)| <= 256
  {
    if ops != [] {
      var init, p := ops[..|ops| - 1], ops[|ops| - 1].port;
      AllAcceptedIff(init);
      NamedInit(ops);
      SubsetIsSmaller(Named(init), Named(ops));
      EntriesAreFirst(init);
      FirstAreNamed(init);
      FirstIsAllIff(init);
      RefsIsNet(init, p);
      assert |Run(init).ports| == |Run(init).ports.Keys|;
      if p !in Named(init) { NetOfUnnamed(init, p); }
    }
  }

  // ---- When map and count agree ----

  /** The map agrees with the count after `ops`. */
  ghost predicate Agrees(ops: seq<Op>) {
    forall p: nat :: Enabled(Run(ops).ports, p) <==> Net(ops, p) > 0
  }

  /** Call `op` after `ops` adds a port that gets or has an entry while its count is not negative,
      or one without an entry while its count is negative; any delete will do. */
  predicate AddFits(ops: seq<Op>, op: Op) {
    op.add ==> (op.port in FirstNamed(ops + [op]) <==> Net(ops, op.port) >= 0)
  }

  predicate AddsFit(ops: seq<Op>) {
    ops != [] ==> AddsFit(ops[..|ops| - 1]) && AddFits(ops[..|ops| - 1], ops[|ops| - 1])
  }

  /** No call adds a port whose net count has gone negative. */
  predicate NoAddBelowZero(ops: seq<Op>) {
    ops != [] ==>
      && NoAddBelowZero(ops[..|ops| - 1])
      && (ops[|ops| - 1].add ==> Net(ops[..|ops| - 1], ops[|ops| - 1].port) >= 0)
  }

  lemma AgreesAfterLast(ops: seq<Op>)
    requires ops != [] && Agrees(ops[..|ops| - 1])
    ensures Agrees(ops) <==> AddFits(ops[..|ops| - 1], ops[|ops| - 1])
  {
    var init, last := ops[..|ops| - 1], ops[|ops| - 1];
    assert init + [last] == ops;
    forall p: nat
      ensures p != last.port ==> (Enabled(Run(ops).ports, p) <==> Net(ops, p) > 0)
    {
      EnabledExactly(ops, p);
      EnabledExactly(init, p);
    }
    EnabledExactly(ops, last.port);
    EnabledExactly(init, last.port);
    assert Enabled(Run(init).ports, last.port) <==> Net(init, last.port) > 0;
    assert (Enabled(Run(ops).ports, last.port) <==> Net(ops, last.port) > 0) <==> AddFits(init, last);
  }

  ghost predicate AlwaysAgrees(ops: seq<Op>) {
    Agrees(ops) && (ops != [] ==> AlwaysAgrees(ops[..|ops| - 1]))
  }

  /** Map and count agree after every call of a history exactly when every add fits. */
  lemma {:induction false} AlwaysAgreesIff(ops: seq<Op>)
    ensures AlwaysAgrees(ops) <==> AddsFit(ops)
  {
    if ops != [] {
      AlwaysAgreesIff(ops[..|ops| - 1]);
      if AlwaysAgrees(ops[..|ops| - 1]) { AgreesAfterLast(ops); }
    }
  }

  /** For up to 256 ports every add fits exactly when none is below zero; in particular whenever
      deletes never outrun adds. */
  lemma {:induction false} FewPortsFitIff(ops: seq<Op>)
    requires |Named(ops)| <= 256
    ensures AddsFit(ops) <==> NoAddBelowZero(ops)
  {
    if ops != [] {
      var init := ops[..|ops| - 1];
      NamedInit(ops);
      SubsetIsSmaller(Named(init), Named(ops));
      FewPortsFitIff(init);
      FirstIsAllIff(ops);
      assert init + [ops[|ops| - 1]] == ops;
    }
  }

  /** Why the exact condition is needed: a delete, then an add, leaves a filter nobody counts. */
  lemma DeleteThenAddStaysEnabled(p: nat)
    ensures var ops := [Op(p, false), Op(p, true)];
            Net(ops, p) == 0 && Enabled(Run(ops).ports, p)
  {
    var one := [Op(p, false)];
    var two := one + [Op(p, true)];
    assert one[..0] == [] && two[..1] == one;
    assert Run(one) == Update(EMPTY, one[0]).0;
    assert Run(two) == Update(Run(one), two[1]).0;
    assert Refs(Run(one), p) == -1 && p in Run(one).ports;
    assert Net(two, p) == Net(one, p) + 1;
    assert two == [Op(p, false), Op(p, true)];
  }

  /** Why 256 is needed: after any history of 256 ports or more, the first add of another port is
      refused, and the second one reports success with the port still disabled. */
  lemma FullMapLosesNewPort(ops: seq<Op>, p: nat)
    requires |Named(ops)| >= 256 && p !in Named(ops)
    ensures var add := Op(p, true);
            && Update(Run(ops), add).1 == -1 && Update(Run(ops + [add]), add).1 == 0
            && Net(ops + [add, add], p) == 2 && !Enabled(Run(ops + [add, add]).ports, p)
  {
    var add := Op(p, true);
    var one, two := ops + [add], ops + [add, add];
    assert one[..|ops|] == ops && two[..|one|] == one;
    FirstAreNamed(ops);
    FirstIsAllIff(ops);
    EntriesAreFirst(ops);
    NetOfUnnamed(ops, p);
    RefsIsNet(ops, p);
    assert |Run(ops).ports| == |Run(ops).ports.Keys|;
    assert Run(one) == Update(Run(ops), add).0 && Refs(Run(one), p) == 1;
    assert FirstNamed(one) == FirstNamed(ops) && FirstNamed(two) == FirstNamed(ops);
    EnabledExactly(two, p);
  }

  /** One add of each of the ports below `n`. */
  function AddAll(n: nat): seq<Op> {
    if n == 0 then [] else AddAll(n - 1) + [Op(n - 1, true)]
  }

  lemma {:induction false} AddAllNames(n: nat)
    ensures |AddAll(n)| == n && |Named(AddAll(n))| == n
    ensures forall p: nat :: p in Named(AddAll(n)) <==> p < n
  {
    if n > 0 {
      AddAllNames(n - 1);
      assert AddAll(n)[..n - 1] == AddAll(n - 1);
      NamedInit(AddAll(n));
    }
  }

  lemma {:induction false} AddAllNet(n: nat, p: nat)
    requires p < n
    ensures Net(AddAll(n), p) == 1
  {
    assert AddAll(n)[..n - 1] == AddAll(n - 1) by { AddAllNames(n - 1); }
    if p < n - 1 {
      AddAllNet(n - 1, p);
    } else {
      AddAllNames(n - 1);
      NetOfUnnamed(AddAll(n - 1), p);
    }
  }

  /** The map has room for exactly 256 ports: that many adds succeed and filter their ports, and the
      next one is refused. */
  lemma Capacity(p: nat)
    requires p < 256
    ensures AllAccepted(AddAll(256)) && Enabled(Run(AddAll(256)).ports, p)
    ensures Update(Run(AddAll(256)), Op(256, true)).1 == -1
  {
    AddAllNames(256);
    AddAllNet(256, p);
    AllAcceptedIff(AddAll(256));
    FirstIsAllIff(AddAll(256));
    EnabledExactly(AddAll(256), p);
    FullMapLosesNewPort(AddAll(256), 256);
  }

  /** Ports 0 to 255 are added, then port 256 twice: it counts two references and is not filtered. */
  lemma FullMapRun()
    ensures var ops := AddAll(256) + [Op(256, true), Op(256, true)];
            Net(ops, 256) == 2 && !Enabled(Run(ops).ports, 256)
  {
    AddAllNames(256);
    FullMapLosesNewPort(AddAll(256), 256);
  }

  // ---- The XDP program ----

  /** A received packet, as far as the header parsers of `mtl_dp_filter` get. */
  datatype Packet = NotIpv4 | NotUdp | TruncatedUdp | Udp(dst: nat)

  /** In the program chain, Drop is the code that hands the packet on to the AF_XDP socket. */
  datatype Verdict = Pass | Drop

  function DpFilter(ports: map<nat, nat>, pkt: Packet): Verdict {
    match pkt
    case NotIpv4 => Pass
    case NotUdp => Pass
    case TruncatedUdp => Pass
    case Udp(dst) => if Enabled(ports, dst) then Drop else Pass
  }

  /** End to end: which packets the XDP program diverts, in terms of the history of client calls. */
  lemma VerdictFollowsHistory(ops: seq<Op>, pkt: Packet)
    ensures DpFilter(Run(ops).ports, pkt) == Drop <==>
            pkt.Udp? && pkt.dst in FirstNamed(ops) && (Net(ops, pkt.dst) > 0 || LastIsAdd(ops, pkt.dst))
    ensures AddsFit(ops) ==>
              (DpFilter(Run(ops).ports, pkt) == Drop <==> pkt.Udp? && Net(ops, pkt.dst) > 0)
  {
    if pkt.Udp? {
      EnabledExactly(ops, pkt.dst);
      AlwaysAgreesIff(ops);
    }
  }
}
