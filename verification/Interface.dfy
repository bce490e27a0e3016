/** Interface objects and the kernel tables they work on. */
module Interface {
  import opened ManagerModel
  import Filter

  /** The kernel's flow tables, as far as the ethtool calls of the manager see them. */
  class Kernel {
    var rules: set<Rule>

    constructor (rules: set<Rule>)
      ensures this.rules == rules
    {
      this.rules := rules;
    }

    /** The occupied locations of an interface, in an order of the kernel's choosing. */
    method List(ifindex: nat) returns (locs: seq<nat>)
      ensures forall l :: l in locs <==> l in Locations(rules, ifindex)
    {
      locs := [];
      var left := Locations(rules, ifindex);
      while left != {}
        invariant left <= Locations(rules, ifindex)
        invariant forall l :: l in locs <==> l in Locations(rules, ifindex) - left
        decreases left
      {
        var l :| l in left;
        locs := locs + [l];
        left := left - {l};
      }
    }

    /** Deletes one rule, unless it is absent or the driver fails on it. */
    method Delete(ifindex: nat, loc: nat, fails: set<Rule>) returns (ret: int)
      modifies this
      ensures ret == if (ifindex, loc) in old(rules) && (ifindex, loc) !in fails then 0 else -1
      ensures rules == if ret == 0 then old(rules) - {(ifindex, loc)} else old(rules)
    {
      if (ifindex, loc) !in rules || (ifindex, loc) in fails { return -1; }
      rules := rules - {(ifindex, loc)};
      return 0;
    }

    method Insert(ifindex: nat, loc: int, ok: bool) returns (ret: int)
      modifies this
      ensures ret == if loc < 0 || !ok then -1 else 0
      ensures rules == if ret == 0 then old(rules) + {(ifindex, loc)} else old(rules)
    {
      if loc < 0 || !ok { return -1; }
      rules := rules + {(ifindex, loc)};
      return 0;
    }
  }

  /** The inner scan of the search. */
  method IsUsed(locs: seq<nat>, loc: int) returns (used: bool)
    ensures used <==> loc in locs
  {
    for i := 0 to |locs|
      invariant loc !in locs[..i]
    {
      if locs[i] == loc { return true; }
    }
    assert locs[..|locs|] == locs;
    return false;
  }

  /** The search loop of `add_flow`: from the last location down, scanning the list of occupied
      ones for each. It stops at the highest free location above 0, or at 0 if there is none; a
      table size that does not fit a signed counter is not searched at all. */
  method FindFreeLocation(size: U32, locs: seq<nat>) returns (freeLoc: int)
    ensures freeLoc == HighestFree(LastLocation(size), set l | l in locs)
    ensures 1 <= size <= 0x8000_0000 ==>
              && 0 <= freeLoc < size && (freeLoc != 0 ==> freeLoc !in locs)
              && (freeLoc == 0 <==> forall l :: 1 <= l < size ==> l in locs)
              && forall l :: freeLoc < l < size ==> l in locs
    ensures !(1 <= size <= 0x8000_0000) ==> freeLoc < 0
  {
    freeLoc := LastLocation(size);
    while freeLoc > 0
      invariant LastLocation(size) >= 0 ==> freeLoc >= 0
      invariant freeLoc <= LastLocation(size)
      invariant LastLocation(size) < 0 ==> freeLoc == LastLocation(size)
      invariant forall l :: freeLoc < l <= LastLocation(size) ==> l in locs
      invariant HighestFree(LastLocation(size), set l | l in locs)
             == HighestFree(freeLoc, set l | l in locs)
    {
      var used := IsUsed(locs, freeLoc);
      if used {
        freeLoc := freeLoc - 1;
      } else {
        break;
      }
    }
  }

  class Interface {
    const id: nat
    const ifindex: nat
    var uses: nat
    var queues: seq<bool>
    var refcnt: map<nat, int>
    var ports: map<nat, nat>

    ghost function TakenQueues(): set<nat>
      reads this
    {
      set q: nat | q < |queues| && queues[q]
    }

    ghost function View(): Iface
      reads this
    {
      Iface(ifindex, uses, |queues|, TakenQueues(), Filter.Table(refcnt, ports))
    }

    /** A new object is held once, by the shared pointer it is returned in. */
    constructor (id: nat, ifindex: nat, channels: Channels)
      ensures this.id == id && View() == FreshIface(ifindex, channels)
    {
      this.id := id;
      this.ifindex := ifindex;
      uses := 1;
      queues := seq(channels, _ => false)[0 := true];
      refcnt := map[];
      ports := map[];
      new;
      assert TakenQueues() == {0};
    }

    /** Goes through the rules that the kernel lists. The counter that bounds the loop is a field of
        the request, and preparing the first deletion zeroes the whole request. */
    static method ClearFlowRules(kernel: Kernel, ifindex: nat, env: Env)
      modifies kernel
      ensures kernel.rules == Cleared(old(kernel.rules), ifindex, env)
    {
      if ifindex !in env.listed { return; }
      var locs := env.listed[ifindex];
      var ruleCnt := |locs|;
      var i := 0;
      while i < ruleCnt
        invariant i == 0 ==> ruleCnt == |locs| && kernel.rules == old(kernel.rules)
        invariant i > 0 ==> ruleCnt == 0 && kernel.rules == Cleared(old(kernel.rules), ifindex, env)
        invariant i >= 0
        decreases ruleCnt - i
      {
        var id := locs[i];
        ruleCnt := 0;
        var ret := kernel.Delete(ifindex, id, env.clearFails);
        i := i + 1;
      }
    }

    /** The construction sequence: the flow table is cleared before anything that can fail. */
    static method Create(kernel: Kernel, id: nat, ifindex: nat, env: Env) returns (obj: Interface?)
      modifies kernel
      ensures kernel.rules == Cleared(old(kernel.rules), ifindex, env)
      ensures obj == null <==> ifindex !in env.channels
      ensures obj != null ==>
                fresh(obj) && obj.id == id && obj.View() == FreshIface(ifindex, env.channels[ifindex])
    {
      ClearFlowRules(kernel, ifindex, env);
      if ifindex !in env.channels { return null; }
      obj := new Interface(id, ifindex, env.channels[ifindex]);
    }

    method UpdateUdpDpFilter(port: nat, add: bool) returns (ret: int)
      modifies this
      ensures var u := Filter.Update(old(View().filter), Filter.Op(port, add));
              ret == u.1 && View() == old(View()).(filter := u.0)
    {
      refcnt := refcnt[port := (if port in refcnt then refcnt[port] else 0) + (if add then 1 else -1)];
      if add && refcnt[port] > 1 {
        return 0;
      } else if !add && refcnt[port] > 0 {
        return 0;
      }
      if !Filter.HasRoom(ports, port) { return -1; }
      ports := ports[port := if add then 1 else 0];
      return 0;
    }

    /** Takes the lowest free queue. */
    method GetQueue() returns (ret: int)
      modifies this
      ensures var f := old(View());
              && ret == LowestFree(0, f.count, f.taken)
              && View() == if ret < 0 then f else f.(taken := f.taken + {ret})
    {
      var q := 0;
      while q < |queues| && queues[q]
        invariant 0 <= q <= |queues|
        invariant forall x :: 0 <= x < q ==> queues[x]
        invariant LowestFree(0, |queues|, TakenQueues()) == LowestFree(q, |queues|, TakenQueues())
      {
        q := q + 1;
      }
      if q == |queues| { return -1; }
      queues := queues[q := true];
      assert TakenQueues() == old(TakenQueues()) + {q};
      return q;
    }

    method PutQueue(q: nat) returns (ret: int)
      modifies this
      ensures var f := old(View());
              && ret == (if q < f.count && q in f.taken then 0 else -1)
              && View() == if ret == 0 then f.(taken := f.taken - {q}) else f
    {
      if q >= |queues| || !queues[q] { return -1; }
      queues := queues[q := false];
      assert TakenQueues() == old(TakenQueues()) - {q};
      return 0;
    }

    method AddFlow(kernel: Kernel, env: Env) returns (ret: int)
      modifies kernel
      ensures var l := FlowLocation(old(kernel.rules), ifindex, env.tableSize);
              && ret == (if l <= 0 || !env.insertOk then -1 else l)
              && kernel.rules == if ret < 0 then old(kernel.rules) else old(kernel.rules) + {(ifindex, ret)}
    {
      var locs := kernel.List(ifindex);
      var freeLoc := FindFreeLocation(env.tableSize, locs);
      assert (set l | l in locs) == Locations(kernel.rules, ifindex);
      if freeLoc == 0 { return -1; }
      ret := kernel.Insert(ifindex, freeLoc, env.insertOk);
      if ret < 0 { return; }
      return freeLoc;
    }

    method DelFlow(kernel: Kernel, loc: nat, fails: set<Rule>) returns (ret: int)
      modifies kernel
      ensures ret == if (ifindex, loc) in old(kernel.rules) && (ifindex, loc) !in fails then 0 else -1
      ensures kernel.rules == if ret == 0 then old(kernel.rules) - {(ifindex, loc)} else old(kernel.rules)
    {
      ret := kernel.Delete(ifindex, loc, fails);
    }
  }
}
