/** The port arguments of the FFmpeg plugin. Up to eight device ports may be given, with gaps; one
    traversal compacts them into the device parameters, another one walks over them again to find
    the default port of each session. */
module DevicePorts {
  import opened Options

  const NAME_SIZE: nat := 64
  const MAX_QUEUES: int := 65535

  /** An address argument: absent, unparsable or an IPv4 address. */
  datatype AddrArg = NoAddr | BadAddr | Addr(ip: nat)

  datatype PortArg = PortArg(name: Option<string>, sip: AddrArg, txQueues: int, rxQueues: int)

  /** One configured port; the address is 0 if none was given. */
  datatype DevPort = DevPort(name: string, ip: nat, txQueues: nat, rxQueues: nat)

  predicate PortOk(a: PortArg) {
    a.name.Some? ==>
      && |a.name.value| < NAME_SIZE
      && 0 <= a.txQueues <= MAX_QUEUES && 0 <= a.rxQueues <= MAX_QUEUES
      && !a.sip.BadAddr?
  }

  predicate PortsOk(args: seq<PortArg>) {
    forall i :: 0 <= i < |args| ==> PortOk(args[i])
  }

  /** The reference: the given ports in order, each with its own address and queue counts. */
  function Compact(args: seq<PortArg>): (ps: seq<DevPort>)
    requires PortsOk(args)
    ensures |ps| == |Names(args)| && forall k :: 0 <= k < |ps| ==> ps[k].name == Names(args)[k]
  {
    if args == [] then []
    else
      var init, a := args[..|args| - 1], args[|args| - 1];
      if a.name.None? then Compact(init)
      else
        var ip := if a.sip.Addr? then a.sip.ip else 0;
        Compact(init) + [DevPort(a.name.value, ip, a.txQueues, a.rxQueues)]
  }

  /** The names of the given ports in order. */
  function Names(args: seq<PortArg>): seq<string> {
    if args == [] then []
    else
      var init, a := args[..|args| - 1], args[|args| - 1];
      if a.name.None? then Names(init) else Names(init) + [a.name.value]
  }

  /** How many of the first n arguments give a port. */
  function GivenBefore(args: seq<PortArg>, n: nat): nat
    requires n <= |args|
  {
    if n == 0 then 0 else GivenBefore(args, n - 1) + (if args[n - 1].name.Some? then 1 else 0)
  }

  lemma {:induction false} GivenInPrefix(args: seq<PortArg>, m: nat, n: nat)
    requires n <= m <= |args|
    ensures GivenBefore(args[..m], n) == GivenBefore(args, n)
  {
    if n > 0 { GivenInPrefix(args, m, n - 1); }
  }

  lemma {:induction false} NamesAt(args: seq<PortArg>, i: nat)
    requires i < |args|
    ensures |Names(args)| == GivenBefore(args, |args|)
    ensures args[i].name.Some? ==>
              GivenBefore(args, i) < |Names(args)| && Names(args)[GivenBefore(args, i)] == args[i].name.value
  {
    var n := |args| - 1;
    GivenInPrefix(args, n, n);
    GivenInPrefix(args, n, i);
    if n > 0 { NamesAt(args[..n], if i < n then i else 0); }
  }

  lemma {:induction false} CompactAt(args: seq<PortArg>, i: nat)
    requires PortsOk(args) && i < |args| && args[i].name.Some?
    ensures var k, a := GivenBefore(args, i), args[i];
            && k < |Compact(args)|
            && Compact(args)[k] == DevPort(a.name.value, if a.sip.Addr? then a.sip.ip else 0, a.txQueues, a.rxQueues)
  {
    var n := |args| - 1;
    NamesAt(args, i);
    GivenInPrefix(args, n, i);
    if i < n {
      CompactAt(args[..n], i);
    } else if n > 0 {
      NamesAt(args[..n], 0);
    }
  }

  /** The given argument at position k among the given ones. */
  lemma {:induction false} KthGiven(args: seq<PortArg>, n: nat, k: nat) returns (j: nat)
    requires n <= |args| && k < GivenBefore(args, n)
    ensures j < n && args[j].name.Some? && GivenBefore(args, j) == k
  {
    j := n - 1;
    if k < GivenBefore(args, n - 1) { j := KthGiven(args, n - 1, k); }
  }

  /** The port loop of `mtl_dev_build_params`: it fails exactly if a given port has a name, a queue
      count or an address that will not do; else port k is the k-th given one, with its own name,
      queue counts and address. */
  method BuildPorts(args: seq<PortArg>) returns (r: Option<seq<DevPort>>)
    ensures r.Some? <==> forall i :: 0 <= i < |args| && args[i].name.Some? ==>
              && |args[i].name.value| < 64 && !args[i].sip.BadAddr?
              && 0 <= args[i].txQueues <= 65535 && 0 <= args[i].rxQueues <= 65535
    ensures r.Some? ==> |r.value| == GivenBefore(args, |args|)
    ensures r.Some? ==> forall i :: 0 <= i < |args| && args[i].name.Some? ==>
              var k := GivenBefore(args, i);
              && k < |r.value| && r.value[k].name == args[i].name.value
              && r.value[k].txQueues == args[i].txQueues && r.value[k].rxQueues == args[i].rxQueues
              && r.value[k].ip == (if args[i].sip.Addr? then args[i].sip.ip else 0)
    ensures r.Some? <==> PortsOk(args)
    ensures r.Some? ==> r.value == Compact(args)
  {
    r := CompactPorts(args);
    if r.Some? {
      if args != [] { NamesAt(args, 0); }
      forall i: nat | i < |args| && args[i].name.Some?
        ensures var k := GivenBefore(args, i);
                && k < |r.value| && r.value[k].name == args[i].name.value
                && r.value[k].txQueues == args[i].txQueues && r.value[k].rxQueues == args[i].rxQueues
                && r.value[k].ip == (if args[i].sip.Addr? then args[i].sip.ip else 0)
      {
        CompactAt(args, i);
      }
    }
    assert PortsOk(args) <==> forall i :: 0 <= i < |args| ==> PortOk(args[i]);
  }

  method CompactPorts(args: seq<PortArg>) returns (r: Option<seq<DevPort>>)
    ensures r.Some? <==> PortsOk(args)
    ensures r.Some? ==> r.value == Compact(args)
  {
    var ports: seq<DevPort> := [];
    var i := 0;
    while i < |args|
      invariant 0 <= i <= |args| && PortsOk(args[..i]) && ports == Compact(args[..i])
    {
      assert args[..i + 1][..i] == args[..i];
      var a := args[i];
      if a.name.Some? {
        if |a.name.value| >= NAME_SIZE { return None; }
        if a.txQueues < 0 || a.txQueues > MAX_QUEUES || a.rxQueues < 0 || a.rxQueues > MAX_QUEUES {
          return None;
        }
        var ip := 0;
        if a.sip.BadAddr? { return None; }
        if a.sip.Addr? { ip := a.sip.ip; }
        ports := ports + [DevPort(a.name.value, ip, a.txQueues, a.rxQueues)];
      }
      i := i + 1;
    }
    assert args[..i] == args;
    return Some(ports);
  }

  // ---- Session ports ----

  lemma {:induction false} NamesAppend(a: seq<PortArg>, b: seq<PortArg>)
    ensures Names(a + b) == Names(a) + Names(b)
  {
    if b == [] {
      assert a + b == a;
    } else {
      var n := |b| - 1;
      NamesAppend(a, b[..n]);
      assert (a + b)[..|a| + n] == a + b[..n];
    }
  }

  /** `mtl_next_dev_port`: the next given port at or after `index`, and the index after it. */
  method NextDevPort(args: seq<PortArg>, index: nat) returns (port: Option<string>, next: nat)
    requires index <= |args|
    ensures index <= next <= |args|
    ensures Names(args[index..]) == (if port.Some? then [port.value] else []) + Names(args[next..])
    ensures port.None? ==> next == |args| && forall j :: index <= j < next ==> args[j].name.None?
    ensures port.Some? ==>
              && index < next && args[next - 1].name == port
              && forall j :: index <= j < next - 1 ==> args[j].name.None?
  {
    next := index;
    while next < |args|
      invariant index <= next <= |args|
      invariant forall j :: index <= j < next ==> args[j].name.None?
      invariant Names(args[index..]) == Names(args[next..])
    {
      port := args[next].name;
      assert args[next..] == [args[next]] + args[next + 1..];
      NamesAppend([args[next]], args[next + 1..]);
      assert [args[next]][..0] == [];
      next := next + 1;
      if port.Some? { return; }
    }
    return None, next;
  }

  /** The arguments of one session port. */
  datatype SessionArg = SessionArg(name: Option<string>, addr: AddrArg)
  datatype SessionPort = SessionPort(name: string, ip: nat, udpPort: nat)

  /** The ports of a session, and the payload type they share. */
  datatype SessionPorts = SessionPorts(ports: seq<SessionPort>, payloadType: int)

  /** The name a session port gets: its own argument, else the compacted device port with the
      same position. */
  function SessionName(dev: seq<PortArg>, args: seq<SessionArg>, i: nat): Option<string>
    requires i < |args|
  {
    if args[i].name.Some? then args[i].name
    else if i < |Names(dev)| then Some(Names(dev)[i])
    else None
  }

  /** `snprintf` into a name buffer. */
  function Fit(s: string): string {
    if |s| < NAME_SIZE then s else s[..NAME_SIZE - 1]
  }

  /** The session ports in use: those before the first one without a name. */
  ghost predicate InUse(dev: seq<PortArg>, args: seq<SessionArg>, n: nat) {
    && n <= |args|
    && (forall i :: 0 <= i < n ==> SessionName(dev, args, i).Some?)
    && (n < |args| ==> SessionName(dev, args, n).None?)
  }

  predicate SessionOk(arg: SessionArg, udpPort: int, payloadType: int) {
    !arg.addr.BadAddr? && 0 <= udpPort <= 0xFFFF && 0 <= payloadType <= 0x7F
  }

  function PortFor(dev: seq<PortArg>, args: seq<SessionArg>, i: nat, udpPort: nat): SessionPort
    requires i < |args| && SessionName(dev, args, i).Some?
  {
    SessionPort(Fit(SessionName(dev, args, i).value),
                if args[i].addr.Addr? then args[i].addr.ip else 0,
                udpPort)
  }

  /** `mtl_parse_rx_port` and `mtl_parse_tx_port`, which differ only in what they call the address. The
      ports used are those before the first one with neither a name of its own nor a device port at its
      position. Each gets its own name, else that of the device port, cut to 63 characters, its own
      address or none, and the UDP port; the payload type is stored unless no port is used. The call
      fails exactly when a used port has an argument out of range. */
  method ParseSessionPorts(dev: seq<PortArg>, args: seq<SessionArg>, udpPort: int, payloadType: int, before: int)
    returns (r: Option<SessionPorts>)
    ensures r.Some? ==>
              var ports, given := r.value.ports, GivenBefore(dev, |dev|);
              && |ports| <= |args| && (forall i :: 0 <= i < |ports| ==> args[i].name.Some? || i < given)
              && (|ports| < |args| ==> args[|ports|].name.None? && |ports| >= given)
              && r.value.payloadType == (if ports == [] then before else payloadType)
    ensures r.Some? ==> forall i :: 0 <= i < |r.value.ports| ==>
              var p := r.value.ports[i];
              && !args[i].addr.BadAddr? && 0 <= udpPort <= 0xFFFF && 0 <= payloadType <= 0x7F
              && p.udpPort == udpPort && p.ip == (if args[i].addr.Addr? then args[i].addr.ip else 0)
              && (args[i].name.Some? ==>
                    p.name == if |args[i].name.value| < 64 then args[i].name.value else args[i].name.value[..63])
              && (args[i].name.None? ==>
                    exists j :: 0 <= j < |dev| && dev[j].name.Some? && GivenBefore(dev, j) == i
                             && p.name == if |dev[j].name.value| < 64 then dev[j].name.value else dev[j].name.value[..63])
    ensures r.None? ==>
              exists i :: 0 <= i < |args|
                       && (args[i].addr.BadAddr? || !(0 <= udpPort <= 0xFFFF) || !(0 <= payloadType <= 0x7F))
                       && forall j :: 0 <= j <= i ==> args[j].name.Some? || j < GivenBefore(dev, |dev|)
  {
    r := ParsePorts(dev, args, udpPort, payloadType, before);
    if dev != [] { NamesAt(dev, 0); }
    if r.Some? {
      forall i | 0 <= i < |r.value.ports|
        ensures var p := r.value.ports[i];
                && !args[i].addr.BadAddr? && 0 <= udpPort <= 0xFFFF && 0 <= payloadType <= 0x7F
                && p.udpPort == udpPort && p.ip == (if args[i].addr.Addr? then args[i].addr.ip else 0)
                && (args[i].name.Some? ==>
                      p.name == if |args[i].name.value| < 64 then args[i].name.value else args[i].name.value[..63])
                && (args[i].name.None? ==>
                      exists j :: 0 <= j < |dev| && dev[j].name.Some? && GivenBefore(dev, j) == i
                               && p.name == if |dev[j].name.value| < 64 then dev[j].name.value else dev[j].name.value[..63])
      {
        assert SessionName(dev, args, i).Some?;
        if args[i].name.None? {
          var j := KthGiven(dev, |dev|, i);
          NamesAt(dev, j);
        }
      }
    } else {
      var i :| 0 <= i < |args| && !SessionOk(args[i], udpPort, payloadType)
            && forall j :: 0 <= j <= i ==> SessionName(dev, args, j).Some?;
      forall j | 0 <= j <= i ensures args[j].name.Some? || j < GivenBefore(dev, |dev|) {
        assert SessionName(dev, args, j).Some?;
      }
    }
  }

  method ParsePorts(dev: seq<PortArg>, args: seq<SessionArg>, udpPort: int, payloadType: int, before: int)
    returns (r: Option<SessionPorts>)
    ensures r.Some? ==>
              var ports := r.value.ports;
              && InUse(dev, args, |ports|)
              && (ports != [] ==> udpPort >= 0)
              && r.value.payloadType == (if ports == [] then before else payloadType)
              && forall i :: 0 <= i < |ports| ==>
                   SessionOk(args[i], udpPort, payloadType) && ports[i] == PortFor(dev, args, i, udpPort)
    ensures r.None? ==>
              exists i :: 0 <= i < |args| && !SessionOk(args[i], udpPort, payloadType)
                       && forall j :: 0 <= j <= i ==> SessionName(dev, args, j).Some?
  {
    var ports: seq<SessionPort> := [];
    var stored := before;
    var index := 0;
    var i := 0;
    assert dev[0..] == dev;
    while i < |args|
      invariant 0 <= i <= |args| && index <= |dev| && |ports| == i
      invariant stored == if i == 0 then before else payloadType
      invariant Names(dev[index..]) == From(Names(dev), i)
      invariant i > 0 ==> udpPort >= 0
      invariant forall j :: 0 <= j < i ==>
                  && SessionName(dev, args, j).Some? && SessionOk(args[j], udpPort, payloadType)
                  && ports[j] == PortFor(dev, args, j, udpPort)
    {
      var devPort, next := NextDevPort(dev, index);
      NextName(dev, index, i, devPort, next);
      index := next;
      var name := if args[i].name.Some? then args[i].name else devPort;
      assert name == SessionName(dev, args, i);
      if name.None? { return Some(SessionPorts(ports, stored)); }
      var ip := 0;
      if args[i].addr.BadAddr? { return None; }
      if args[i].addr.Addr? { ip := args[i].addr.ip; }
      if udpPort < 0 || udpPort > 0xFFFF { return None; }
      if payloadType < 0 || payloadType > 0x7F { return None; }
      ports := ports + [SessionPort(Fit(name.value), ip, udpPort)];
      stored := payloadType;
      i := i + 1;
    }
    return Some(SessionPorts(ports, stored));
  }

  function From(names: seq<string>, i: nat): seq<string> {
    if i <= |names| then names[i..] else []
  }

  /** The i-th call of `mtl_next_dev_port` yields the i-th name. */
  lemma NextName(dev: seq<PortArg>, index: nat, i: nat, port: Option<string>, next: nat)
    requires index <= next <= |dev| && (port.None? ==> next == |dev|)
    requires Names(dev[index..]) == From(Names(dev), i)
    requires Names(dev[index..]) == (if port.Some? then [port.value] else []) + Names(dev[next..])
    ensures port == if i < |Names(dev)| then Some(Names(dev)[i]) else None
    ensures Names(dev[next..]) == From(Names(dev), i + 1)
  {
    if port.Some? {
      assert From(Names(dev), i)[0] == port.value && From(Names(dev), i)[1..] == Names(dev[next..]);
    } else {
      assert dev[next..] == [];
    }
  }

  /** The two traversals agree: the default name of session port `i` is the name of compacted
      device port `i`, untruncated. */
  lemma DefaultIsCompactedPort(dev: seq<PortArg>, args: seq<SessionArg>, i: nat)
    requires PortsOk(dev) && i < |args| && args[i].name.None?
    ensures SessionName(dev, args, i) ==
            if i < |Compact(dev)| then Some(Compact(dev)[i].name) else None
    ensures i < |Compact(dev)| ==> Fit(Compact(dev)[i].name) == Compact(dev)[i].name
  {
    if i < |Compact(dev)| {
      CompactNamesFit(dev, i);
    }
  }

  lemma {:induction false} CompactNamesFit(dev: seq<PortArg>, i: nat)
    requires PortsOk(dev) && i < |Compact(dev)|
    ensures |Compact(dev)[i].name| < NAME_SIZE
  {
    var n := |dev| - 1;
    if i < |Compact(dev[..n])| {
      CompactNamesFit(dev[..n], i);
    } else {
      assert PortOk(dev[n]);
    }
  }
}
