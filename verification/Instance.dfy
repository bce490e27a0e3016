/** One connected client and the state all clients share. */
module Instance {
  import opened Options
  import opened ManagerModel
  import opened Coherence
  import opened Lcore
  import opened Interface

  /** The process-wide state: the lcore table, the kernel and the global map of weak pointers.
      A weak pointer can be locked while the use count of its target is positive. */
  class Shared {
    const lcores: LcoreTable
    const kernel: Kernel
    var interfaces: map<nat, Interface>
    var nextId: nat
    ghost var live: map<nat, Interface>
    ghost var repr: set<Interface>

    ghost predicate Valid()
      reads this, repr
    {
      && lcores.Valid()
      && (forall o :: o in live ==> live[o] in repr)
      && (forall i :: i in interfaces ==> interfaces[i] in repr)
      && (forall o :: o in live ==> live[o].id == o && live[o].uses > 0 && o < nextId)
      && (forall i :: i in interfaces ==>
            var f := interfaces[i];
            && f.ifindex == i && f.id < nextId
            && (f.id in live ==> live[f.id] == f)
            && (f.uses > 0 ==> f.id in live))
    }

    /** The live objects, by name. */
    ghost function Objects(): map<nat, Iface>
      requires forall o :: o in live ==> live[o] in repr
      reads `live, `repr, repr
    {
      map o | o in live :: live[o].View()
    }

    /** The names of the targets of the weak pointers. */
    ghost function WeakNames(): map<nat, nat>
      reads `interfaces
    {
      map i | i in interfaces :: interfaces[i].id
    }

    ghost function View(): Globals
      requires Valid()
      reads this, lcores.bs, kernel, repr
    {
      Globals(lcores.Taken(), kernel.rules, Objects(), WeakNames(), nextId)
    }

    constructor (rules: set<Rule>)
      ensures Valid() && View() == Init(rules).g
      ensures fresh(lcores) && fresh(lcores.bs) && fresh(kernel) && live == map[] && repr == {}
    {
      lcores := new LcoreTable();
      kernel := new Kernel(rules);
      interfaces := map[];
      nextId := 0;
      live := map[];
      repr := {};
    }

    /** Locking the weak pointer of an interface succeeds exactly when the model says it is live. */
    lemma LockIffLive(i: nat)
      requires Valid()
      ensures i in interfaces && interfaces[i].uses > 0 <==> Live(View(), i)
    {
    }

    /** Steps that touch none of the shared objects. */
    twostate lemma Untouched()
      requires old(Valid()) && unchanged(this) && unchanged(kernel) && unchanged(lcores.bs)
      requires unchanged(repr)
      ensures Valid() && View() == old(View())
    {
    }

    /** What the shared state looks like after the last pointer to an object is gone. */
    twostate lemma ObjectRemoved(f: Interface)
      requires old(Valid()) && f.id in old(live) && old(live[f.id]) == f && f.uses == 0
      requires live == old(live) - {f.id} && interfaces == old(interfaces) && nextId == old(nextId)
      requires repr == old(repr) && unchanged(lcores.bs) && unchanged(repr - {f})
      ensures Valid()
      ensures View() == old(View()).(rules := kernel.rules, ifaces := old(View()).ifaces - {f.id})
    {
      assert Objects() == old(Objects()) - {f.id};
    }

    twostate lemma LcoresChanged()
      requires old(Valid()) && unchanged(this) && unchanged(kernel) && unchanged(repr)
      ensures Valid() && View() == old(View()).(lcores := lcores.Taken())
    {
    }

    twostate lemma RulesChanged()
      requires old(Valid()) && unchanged(this) && unchanged(lcores.bs) && unchanged(repr)
      ensures Valid() && View() == old(View()).(rules := kernel.rules)
    {
    }

    /** All objects of `before` are still live. */
    ghost predicate Extends(before: map<nat, Interface>)
      reads this
    {
      forall o :: o in before ==> o in live && live[o] == before[o]
    }

    /** No object has become live since `before`. */
    ghost predicate Within(before: map<nat, Interface>)
      reads this
    {
      forall o :: o in live ==> o in before && live[o] == before[o]
    }

    /** What the shared state looks like after a change to one live object only. */
    twostate lemma OnlyObjectChanged(f: Interface)
      requires old(Valid()) && f.id in old(live) && old(live[f.id]) == f
      requires unchanged(this) && unchanged(lcores.bs) && unchanged(old(repr) - {f})
      requires f.uses > 0
      ensures Valid()
      ensures View() == old(View()).(rules := kernel.rules, ifaces := old(View()).ifaces[f.id := f.View()])
      ensures f.View() == old(f.View()) ==> View() == old(View()).(rules := kernel.rules)
    {
      assert Objects() == old(Objects())[f.id := f.View()];
      assert old(Objects())[f.id := old(f.View())] == old(Objects());
    }

    /** Turns the weak pointer of a live interface into one more shared pointer. */
    method Lock(i: nat) returns (obj: Interface)
      requires Valid() && i in interfaces && interfaces[i].uses > 0
      modifies interfaces[i]
      ensures Valid() && obj == interfaces[i] && obj.ifindex == i && obj.id in live && live[obj.id] == obj
      ensures var h := old(View());
              View() == h.(ifaces := h.ifaces[obj.id := h.ifaces[obj.id].(uses := h.ifaces[obj.id].uses + 1)])
    {
      obj := interfaces[i];
      obj.uses := obj.uses + 1;
      OnlyObjectChanged(obj);
    }

    /** Builds a new interface object and enters it in the global map, unless its set-up fails. */
    method Build(i: nat, env: Env) returns (obj: Interface?)
      requires Valid()
      modifies this, kernel
      ensures Valid() && Extends(old(live))
      ensures obj == null <==> i !in env.channels
      ensures obj == null ==> live == old(live)
      ensures obj != null ==> obj.ifindex == i && live == old(live)[obj.id := obj]
      ensures obj != null ==> obj.id == old(nextId)
      ensures old(repr) <= repr && fresh(repr - old(repr))
      ensures var h := old(View()).(rules := Cleared(old(View()).rules, i, env));
              View() == if obj == null then h
                        else h.(ifaces := h.ifaces[h.nextId := FreshIface(i, env.channels[i])],
                                weak := h.weak[i := h.nextId],
                                nextId := h.nextId + 1)
    {
      obj := Interface.Create(kernel, nextId, i, env);
      if obj == null { return; }
      Enter(obj);
    }

    /** Enters a new object in the tables. */
    method Enter(obj: Interface)
      requires Valid() && obj.id == nextId && obj.uses > 0
      modifies this
      ensures Valid() && live == old(live)[obj.id := obj] && repr == old(repr) + {obj}
      ensures var h := old(View());
              View() == h.(ifaces := h.ifaces[obj.id := obj.View()],
                           weak := h.weak[obj.ifindex := obj.id],
                           nextId := h.nextId + 1)
    {
      live, interfaces := live[obj.id := obj], interfaces[obj.ifindex := obj];
      nextId, repr := nextId + 1, repr + {obj};
      ObjectAdded(obj);
      assert WeakNames() == old(WeakNames())[obj.ifindex := obj.id];
    }

    twostate lemma ObjectAdded(obj: Interface)
      requires old(Valid()) && repr == old(repr) + {obj} && unchanged(repr)
      requires live == old(live)[obj.id := obj] && obj.id !in old(live)
      ensures Objects() == old(Objects())[obj.id := obj.View()]
    {
    }
  }

  class Instance {
    const fd: int
    var registered: bool
    var lcoreIds: set<nat>
    var interfaces: map<nat, Interface>
    var queueIds: map<nat, set<nat>>
    var flowIds: map<nat, set<nat>>

    ghost function View(): Client
      reads this
    {
      Client(fd, registered, lcoreIds, map i | i in interfaces :: interfaces[i].id, queueIds, flowIds)
    }

    /** The client's pointers are the live objects of these names. */
    ghost predicate Linked(g: Shared)
      reads this, g
    {
      forall i :: i in interfaces ==>
        var f := interfaces[i]; f.ifindex == i && f.id in g.live && g.live[f.id] == f
    }

    constructor (fd: int)
      ensures View() == NewClient(fd) && interfaces == map[]
    {
      this.fd := fd;
      registered := false;
      lcoreIds := {};
      interfaces := map[];
      queueIds := map[];
      flowIds := map[];
    }

    /** A coherent client's pointers name live objects. */
    lemma NamesLive(g: Shared)
      requires g.Valid() && ClientOk(g.View(), View())
      ensures forall i :: i in interfaces ==> interfaces[i].id in g.live
    {
      forall i | i in interfaces ensures interfaces[i].id in g.live {
        assert View().held[i] in g.View().ifaces;
      }
    }

    /** A client not touched by a step stays linked if the names it uses are still live. */
    twostate lemma StaysLinked(g: Shared)
      requires old(Linked(g)) && unchanged(this) && g.Within(old(g.live))
      requires forall i :: i in interfaces ==> interfaces[i].id in g.live
      ensures Linked(g)
    {
    }

    /** `get_interface`: the client's own pointer, the global one, or a new object. */
    method GetInterface(g: Shared, i: nat, env: Env) returns (obj: Interface?)
      requires g.Valid() && Linked(g)
      modifies this, g, g.kernel, g.repr
      ensures g.Valid() && Linked(g) && g.Extends(old(g.live))
      ensures var a := Acquire(old(g.View()), old(View()), i, env);
              g.View() == a.g && View() == a.c
              && a.obj == if obj == null then None else Some(obj.id)
      ensures obj != null ==> i in interfaces && interfaces[i] == obj
      ensures old(g.repr) <= g.repr && fresh(g.repr - old(g.repr))
      ensures old(i in interfaces) ==>
                obj != null && unchanged(this) && unchanged(g) && unchanged(g.kernel) && unchanged(g.repr)
    {
      if i in interfaces { return interfaces[i]; }
      g.LockIffLive(i);
      if i in g.interfaces && g.interfaces[i].uses > 0 {
        obj := ShareInterface(g, i, env);
      } else {
        obj := NewInterface(g, i, env);
      }
    }

    method ShareInterface(g: Shared, i: nat, ghost env: Env) returns (obj: Interface)
      requires g.Valid() && Linked(g)
      requires i !in interfaces && i in g.interfaces && g.interfaces[i].uses > 0
      modifies this, g.interfaces[i]
      ensures g.Valid() && Linked(g)
      ensures Acquire(old(g.View()), old(View()), i, env) == Acquired(g.View(), View(), Some(obj.id))
      ensures i in interfaces && interfaces[i] == obj
    {
      g.LockIffLive(i);
      ghost var a := Acquire(g.View(), View(), i, env);
      obj := g.Lock(i);
      assert g.View() == a.g;
      label locked:
      Hold(i, obj);
      g.Untouched@locked();
    }

    method NewInterface(g: Shared, i: nat, env: Env) returns (obj: Interface?)
      requires g.Valid() && Linked(g)
      requires i !in interfaces && !(i in g.interfaces && g.interfaces[i].uses > 0)
      modifies this, g, g.kernel
      ensures g.Valid() && Linked(g) && g.Extends(old(g.live))
      ensures Acquire(old(g.View()), old(View()), i, env)
           == Acquired(g.View(), View(), if obj == null then None else Some(obj.id))
      ensures obj != null ==> i in interfaces && interfaces[i] == obj
      ensures old(g.repr) <= g.repr && fresh(g.repr - old(g.repr))
    {
      g.LockIffLive(i);
      ghost var a := Acquire(g.View(), View(), i, env);
      obj := g.Build(i, env);
      assert g.View() == a.g;
      if obj == null { return; }
      label built:
      Hold(i, obj);
      g.Untouched@built();
    }

    /** Keeps a shared pointer to the interface. */
    method Hold(i: nat, obj: Interface)
      requires i !in interfaces
      modifies this
      ensures View() == old(View()).(held := old(View()).held[i := obj.id])
      ensures interfaces == old(interfaces)[i := obj]
    {
      interfaces := interfaces[i := obj];
      assert View().held == old(View()).held[i := obj.id];
    }

    // ---- Messages ----

    /** One turn of the loop below. `live` and `result` belong to its start. */
    method AcquireTurn(g: Shared, ifs: seq<nat>, n: nat, env: Env, ghost live: map<nat, Interface>, ghost result: Outcome)
      returns (ok: bool)
      requires g.Valid() && Linked(g) && g.Extends(live) && n < |ifs|
      requires AcquireAll(g.View(), View(), ifs[n..], env) == result
      modifies this, g, g.kernel, g.repr
      ensures g.Valid() && Linked(g) && g.Extends(live)
      ensures old(g.repr) <= g.repr && fresh(g.repr - old(g.repr))
      ensures result == if ok then AcquireAll(g.View(), View(), ifs[n + 1..], env)
                        else Outcome(g.View(), View(), Code(-1))
    {
      AcquireNext(g.View(), View(), ifs, n, env);
      var obj := GetInterface(g, ifs[n], env);
      return obj != null;
    }

    /** The interface loop of a registration: false if one cannot be had. */
    method AcquireInterfaces(g: Shared, ifs: seq<nat>, env: Env) returns (ok: bool)
      requires g.Valid() && Linked(g)
      modifies this, g, g.kernel, g.repr
      ensures g.Valid() && Linked(g) && g.Extends(old(g.live))
      ensures old(g.repr) <= g.repr && fresh(g.repr - old(g.repr))
      ensures AcquireAll(old(g.View()), old(View()), ifs, env) ==
              if ok then Outcome(g.View(), View().(registered := true), Code(0))
              else Outcome(g.View(), View(), Code(-1))
    {
      ghost var live, result := g.live, AcquireAll(g.View(), View(), ifs, env);
      assert ifs[0..] == ifs;
      ok := true;
      var n := 0;
      while n < |ifs|
        invariant 0 <= n <= |ifs|
        invariant g.Valid() && Linked(g) && g.Extends(live)
        invariant old(g.repr) <= g.repr && fresh(g.repr - old(g.repr))
        invariant ok && AcquireAll(g.View(), View(), ifs[n..], env) == result
      {
        ok := AcquireTurn(g, ifs, n, env, live, result);
        if !ok { return; }
        n := n + 1;
      }
    }

    method HandleRegister(g: Shared, ifs: seq<nat>, env: Env) returns (reply: Reply)
      requires g.Valid() && Linked(g)
      modifies this, g, g.kernel, g.repr
      ensures g.Valid() && Linked(g) && g.Extends(old(g.live))
      ensures old(g.repr) <= g.repr && fresh(g.repr - old(g.repr))
      ensures Outcome(g.View(), View(), reply) == AcquireAll(old(g.View()), old(View()), ifs, env)
    {
      var ok := AcquireInterfaces(g, ifs, env);
      if !ok { return Code(-1); }
      label acquired:
      registered := true;
      g.Untouched@acquired();
      return Code(0);
    }

    method HandleGetLcore(g: Shared, id: nat) returns (reply: Reply)
      requires g.Valid() && Linked(g)
      modifies this, g.lcores.bs
      ensures g.Valid() && Linked(g)
      ensures Outcome(g.View(), View(), reply) ==
              if old(registered) then TakeLcore(old(g.View()), old(View()), id)
              else Outcome(old(g.View()), old(View()), Silent)
    {
      if !registered { return Silent; }
      var ret := g.lcores.GetLcore(id);
      g.LcoresChanged();
      if ret < 0 { return Code(ret); }
      label taken:
      lcoreIds := lcoreIds + {id};
      g.Untouched@taken();
      return Code(0);
    }

    method HandlePutLcore(g: Shared, id: nat) returns (reply: Reply)
      requires g.Valid() && Linked(g)
      modifies this, g.lcores.bs
      ensures g.Valid() && Linked(g)
      ensures Outcome(g.View(), View(), reply) ==
              if old(registered) then ReturnLcore(old(g.View()), old(View()), id)
              else Outcome(old(g.View()), old(View()), Silent)
    {
      if !registered { return Silent; }
      var ret := g.lcores.PutLcore(id);
      g.LcoresChanged();
      if ret < 0 { return Code(ret); }
      label returned:
      lcoreIds := lcoreIds - {id};
      g.Untouched@returned();
      return Code(0);
    }

    // The part of each interface message that comes after the interface has been found.

    method FilterOn(g: Shared, i: nat, obj: Interface, port: nat, add: bool) returns (reply: Reply)
      requires g.Valid() && Linked(g) && i in interfaces && interfaces[i] == obj
      modifies obj
      ensures g.Valid() && Linked(g)
      ensures Outcome(g.View(), View(), reply)
           == UpdateFilter(old(g.View()), old(View()), obj.id, port, add)
    {
      var ret := obj.UpdateUdpDpFilter(port, add);
      g.OnlyObjectChanged(obj);
      return Code(ret);
    }

    method RecordQueue(g: Shared, i: nat, q: nat)
      requires g.Valid() && Linked(g)
      modifies this
      ensures g.Valid() && Linked(g) && g.View() == old(g.View())
      ensures View() == old(View()).(queues := old(queueIds)[i := Recorded(old(queueIds), i) + {q}])
    {
      queueIds := queueIds[i := Recorded(queueIds, i) + {q}];
      g.Untouched();
    }

    method GetQueueOn(g: Shared, i: nat, obj: Interface) returns (reply: Reply)
      requires g.Valid() && Linked(g) && i in interfaces && interfaces[i] == obj
      modifies this, obj
      ensures g.Valid() && Linked(g)
      ensures Outcome(g.View(), View(), reply) == TakeQueue(old(g.View()), old(View()), obj.id, i)
    {
      var ret := obj.GetQueue();
      g.OnlyObjectChanged(obj);
      if ret > 0 { RecordQueue(g, i, ret); }
      return Code(ret);
    }

    method ForgetQueue(g: Shared, i: nat, q: nat)
      requires g.Valid() && Linked(g)
      modifies this
      ensures g.Valid() && Linked(g) && g.View() == old(g.View())
      ensures View() == old(View()).(queues := old(queueIds)[i := Recorded(old(queueIds), i) - {q}])
    {
      queueIds := queueIds[i := Recorded(queueIds, i) - {q}];
      g.Untouched();
    }

    method PutQueueOn(g: Shared, i: nat, obj: Interface, q: nat) returns (reply: Reply)
      requires g.Valid() && Linked(g) && i in interfaces && interfaces[i] == obj
      modifies this, obj
      ensures g.Valid() && Linked(g)
      ensures Outcome(g.View(), View(), reply) == ReturnQueue(old(g.View()), old(View()), obj.id, i, q)
    {
      var ret := obj.PutQueue(q);
      g.OnlyObjectChanged(obj);
      if ret == 0 { ForgetQueue(g, i, q); }
      return Code(ret);
    }

    method AddFlowOn(g: Shared, i: nat, obj: Interface, env: Env) returns (reply: Reply)
      requires g.Valid() && Linked(g) && i in interfaces && interfaces[i] == obj
      modifies this, g.kernel
      ensures g.Valid() && Linked(g)
      ensures Outcome(g.View(), View(), reply) == InsertFlow(old(g.View()), old(View()), i, env)
    {
      var ret := obj.AddFlow(g.kernel, env);
      g.RulesChanged();
      label added:
      if ret > 0 {
        flowIds := flowIds[i := Recorded(flowIds, i) + {ret}];
      }
      g.Untouched@added();
      return Code(ret);
    }

    method DelFlowOn(g: Shared, i: nat, obj: Interface, l: nat, env: Env) returns (reply: Reply)
      requires g.Valid() && Linked(g) && i in interfaces && interfaces[i] == obj
      modifies this, g.kernel
      ensures g.Valid() && Linked(g)
      ensures Outcome(g.View(), View(), reply) == DeleteFlow(old(g.View()), old(View()), i, l, env)
    {
      var ret := obj.DelFlow(g.kernel, l, env.delFails);
      g.RulesChanged();
      label deleted:
      if ret == 0 {
        flowIds := flowIds[i := Recorded(flowIds, i) - {l}];
      }
      g.Untouched@deleted();
      return Code(ret);
    }

    method OnInterfaceObject(g: Shared, i: nat, obj: Interface, m: Message, env: Env)
      returns (reply: Reply)
      requires g.Valid() && Linked(g) && i in interfaces && interfaces[i] == obj && Names(m, i)
      modifies this, obj, g.kernel
      ensures g.Valid() && Linked(g)
      ensures Outcome(g.View(), View(), reply)
           == OnInterface(old(g.View()), old(View()), obj.id, m, env)
    {
      match m
      case UdpFilter(_, port, add) => reply := FilterOn(g, i, obj, port, add);
      case GetQueue(_) => reply := GetQueueOn(g, i, obj);
      case PutQueue(_, q) => reply := PutQueueOn(g, i, obj, q);
      case AddFlow(_) => reply := AddFlowOn(g, i, obj, env);
      case DelFlow(_, l) => reply := DelFlowOn(g, i, obj, l, env);
      case XskMapFd(_) => reply := Silent;
    }

    /** The interface messages: find or build the interface, then work on it. */
    method HandleInterfaceMessage(g: Shared, i: nat, m: Message, env: Env) returns (reply: Reply)
      requires g.Valid() && Linked(g) && Names(m, i)
      modifies this, g, g.kernel, g.repr
      ensures g.Valid() && Linked(g) && g.Extends(old(g.live))
      ensures old(g.repr) <= g.repr && fresh(g.repr - old(g.repr))
      ensures Outcome(g.View(), View(), reply) == HandleOn(old(g.View()), old(View()), i, m, env)
    {
      var obj := GetInterface(g, i, env);
      if obj == null { return if m.XskMapFd? then Silent else Code(-1); }
      reply := OnInterfaceObject(g, i, obj, m, env);
    }

    /** `handle_message`: every message does what the step machine says, with the same answer. */
    method HandleMessage(g: Shared, m: Message, env: Env) returns (reply: Reply)
      requires g.Valid() && Linked(g)
      modifies this, g, g.lcores.bs, g.kernel, g.repr
      ensures g.Valid() && Linked(g) && g.Extends(old(g.live))
      ensures old(g.repr) <= g.repr && fresh(g.repr - old(g.repr))
      ensures Outcome(g.View(), View(), reply) == Handle(old(g.View()), old(View()), m, env)
    {
      match m
      case Register(ifs) => reply := HandleRegister(g, ifs, env);
      case GetLcore(id) => reply := HandleGetLcore(g, id);
      case PutLcore(id) => reply := HandlePutLcore(g, id);
      case XskMapFd(i) => reply := HandleInterfaceMessage(g, i, m, env);
      case UdpFilter(i, _, _) => reply := HandleInterfaceMessage(g, i, m, env);
      case GetQueue(i) => reply := HandleInterfaceMessage(g, i, m, env);
      case PutQueue(i, _) => reply := HandleInterfaceMessage(g, i, m, env);
      case AddFlow(i) => reply := HandleInterfaceMessage(g, i, m, env);
      case DelFlow(i, _) => reply := HandleInterfaceMessage(g, i, m, env);
      case Ignored => reply := Silent;
    }
  }

  /** One turn of the registration loop. */
  lemma AcquireNext(g: Globals, c: Client, ifs: seq<nat>, n: nat, env: Env)
    requires n < |ifs|
    ensures var a := Acquire(g, c, ifs[n], env);
            AcquireAll(g, c, ifs[n..], env) ==
            (if a.obj.None? then Outcome(a.g, a.c, Code(-1)) else AcquireAll(a.g, a.c, ifs[n + 1..], env))
  {
    assert ifs[n..][1..] == ifs[n + 1..];
  }
}
