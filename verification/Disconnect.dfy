/** The destructor of a client: it gives back lcores, queues and flow rules, and then drops its
    shared pointers, tearing down every interface it was the last to hold. Its loops together do
    what `ManagerModel.Leave` says in one expression. */
module Disconnect {
  import opened ManagerModel
  import opened Coherence
  import opened Interface
  import opened Instance

  // ---- Partial results, for the interfaces in `done` ----

  function Returned(ifaces: map<nat, Iface>, c: Client, done: set<nat>): map<nat, Iface> {
    map o | o in ifaces ::
      var f := ifaces[o];
      if Holds(c, f.ifindex, o) && f.ifindex in done then f.(taken := f.taken - Recorded(c.queues, f.ifindex)) else f
  }

  function Deleted(rules: set<Rule>, c: Client, done: set<nat>, fails: set<Rule>): set<Rule> {
    set r | r in rules && (r.0 in done && r.1 in Recorded(c.flows, r.0) ==> r in fails)
  }

  function Dropped(ifaces: map<nat, Iface>, c: Client, done: set<nat>): map<nat, Iface> {
    map o | o in ifaces && !(Holds(c, ifaces[o].ifindex, o) && ifaces[o].ifindex in done && ifaces[o].uses <= 1) ::
      var f := ifaces[o];
      if Holds(c, f.ifindex, o) && f.ifindex in done then f.(uses := f.uses - 1) else f
  }

  function TornDown(g: Globals, c: Client, done: set<nat>, env: Env): set<Rule> {
    set r | r in g.rules && !(r.0 in done && LastHolder(g, c, r.0) && ClearHits(env, r))
  }

  /** The client's pointer for interface `i` is object `o`, which is live and serves `i`. */
  predicate Points(g: Globals, c: Client, i: nat, o: nat) {
    Holds(c, i, o) && o in g.ifaces && g.ifaces[o].ifindex == i
  }

  lemma NothingReturned(ifaces: map<nat, Iface>, c: Client)
    ensures Returned(ifaces, c, {}) == ifaces
  {
  }

  lemma ReturnedOneMore(g: Globals, c: Client, done: set<nat>, i: nat, o: nat)
    requires Points(g, c, i, o) && i !in done
    ensures var f := g.ifaces[o];
            && o in Returned(g.ifaces, c, done) && Returned(g.ifaces, c, done)[o] == f
            && Returned(g.ifaces, c, done + {i})
            == Returned(g.ifaces, c, done)[o := f.(taken := f.taken - Recorded(c.queues, i))]
  {
  }

  lemma DroppedOneMore(g: Globals, c: Client, done: set<nat>, i: nat, o: nat)
    requires Points(g, c, i, o) && i !in done
    ensures var f := g.ifaces[o];
            && o in Dropped(g.ifaces, c, done) && Dropped(g.ifaces, c, done)[o] == f
            && Dropped(g.ifaces, c, done + {i}) ==
               if f.uses <= 1 then Dropped(g.ifaces, c, done) - {o}
               else Dropped(g.ifaces, c, done)[o := f.(uses := f.uses - 1)]
  {
  }

  lemma ObjectsInStages(g: Globals, c: Client)
    requires ClientOk(g, c)
    ensures Dropped(Returned(g.ifaces, c, c.queues.Keys), c, c.held.Keys) == IfacesWithout(g.ifaces, c)
  {
    var ifs := Returned(g.ifaces, c, c.queues.Keys);
    forall o | o in g.ifaces && Holds(c, g.ifaces[o].ifindex, o)
      ensures g.ifaces[o].ifindex in c.held
      ensures ifs[o] == g.ifaces[o].(taken := g.ifaces[o].taken - Recorded(c.queues, g.ifaces[o].ifindex))
    {
      var f := g.ifaces[o];
      assert f.ifindex !in c.queues ==> f.taken - Recorded(c.queues, f.ifindex) == f.taken;
    }
  }

  /** All partial results together are the whole. */
  lemma LeaveInStages(g: Globals, g3: Globals, c: Client, env: Env)
    requires ClientOk(g, c)
    requires g3 == g.(lcores := g.lcores - c.lcores,
                      ifaces := Returned(g.ifaces, c, c.queues.Keys),
                      rules := Deleted(g.rules, c, c.flows.Keys, env.delFails))
    ensures Leave(g, c, env) == g3.(rules := TornDown(g3, c, c.held.Keys, env),
                                    ifaces := Dropped(g3.ifaces, c, c.held.Keys))
  {
    ObjectsInStages(g, c);
    assert forall i :: LastHolder(g3, c, i) <==> LastHolder(g, c, i);
    assert TornDown(g3, c, c.held.Keys, env) == RulesWithout(g, c, env);
  }

  // ---- The loops ----

  method ReleaseLcores(c: Instance, g: Shared)
    requires g.Valid()
    modifies g.lcores.bs
    ensures g.Valid() && g.View() == old(g.View()).(lcores := old(g.View()).lcores - c.lcoreIds)
  {
    var left := c.lcoreIds;
    while left != {}
      invariant left <= c.lcoreIds
      invariant g.lcores.Taken() == old(g.lcores.Taken()) - (c.lcoreIds - left)
      decreases left
    {
      var id :| id in left;
      var ret := g.lcores.PutLcore(id);
      left := left - {id};
    }
    g.LcoresChanged();
  }

  method ReturnQueuesOf(obj: Interface, ids: set<nat>)
    modifies obj
    ensures obj.View() == old(obj.View()).(taken := old(obj.View()).taken - ids)
  {
    var left := ids;
    while left != {}
      invariant left <= ids
      invariant obj.View() == old(obj.View()).(taken := old(obj.View()).taken - (ids - left))
      decreases left
    {
      var id :| id in left;
      var ret := obj.PutQueue(id);
      left := left - {id};
      assert obj.View().taken == old(obj.View()).taken - (ids - left);
    }
  }

  /** One turn of the queue loop. The lookup finds the client's own pointer. */
  method ReturnQueuesOn(c: Instance, g: Shared, i: nat, env: Env)
    requires g.Valid() && c.Linked(g) && i in c.interfaces && i in c.queueIds
    modifies c, g, g.kernel, g.repr
    ensures g.Valid() && unchanged(c) && unchanged(g) && unchanged(g.kernel)
    ensures var o := c.interfaces[i].id;
            var f := old(g.Objects())[o];
            g.Objects() == old(g.Objects())[o := f.(taken := f.taken - c.queueIds[i])]
  {
    var obj := c.GetInterface(g, i, env);
    label found:
    ReturnQueuesOf(obj, c.queueIds[i]);
    g.OnlyObjectChanged@found(obj);
  }

  method ReturnQueuesTurn(c: Instance, g: Shared, i: nat, env: Env,
                          ghost h: Globals, ghost cv: Client, ghost done: set<nat>)
    requires g.Valid() && c.Linked(g) && i in c.interfaces && i in c.queueIds
    requires Points(h, cv, i, c.interfaces[i].id) && cv.queues == c.queueIds
    requires i !in done && g.Objects() == Returned(h.ifaces, cv, done)
    modifies c, g, g.kernel, g.repr
    ensures g.Valid() && unchanged(c) && unchanged(g) && unchanged(g.kernel)
    ensures g.Objects() == Returned(h.ifaces, cv, done + {i})
  {
    ReturnedOneMore(h, cv, done, i, c.interfaces[i].id);
    ReturnQueuesOn(c, g, i, env);
  }

  method ReturnQueues(c: Instance, g: Shared, env: Env, ghost h: Globals, ghost cv: Client)
    requires g.Valid() && c.Linked(g) && cv.queues == c.queueIds
    requires forall i :: i in c.queueIds ==> i in c.interfaces && Points(h, cv, i, c.interfaces[i].id)
    requires g.Objects() == h.ifaces
    modifies c, g, g.kernel, g.repr
    ensures g.Valid() && unchanged(c) && unchanged(g) && unchanged(g.kernel)
    ensures g.Objects() == Returned(h.ifaces, cv, cv.queues.Keys)
  {
    ghost var done: set<nat> := {};
    var left := c.queueIds.Keys;
    NothingReturned(h.ifaces, cv);
    while left != {}
      invariant left !! done && done + left == cv.queues.Keys
      invariant unchanged(c) && unchanged(g) && unchanged(g.kernel) && g.Valid()
      invariant g.Objects() == Returned(h.ifaces, cv, done)
      decreases left
    {
      var i :| i in left;
      ReturnQueuesTurn(c, g, i, env, h, cv, done);
      left, done := left - {i}, done + {i};
    }
    assert done == cv.queues.Keys;
  }

  method DeleteFlowsOf(obj: Interface, kernel: Kernel, ids: set<nat>, fails: set<Rule>)
    modifies kernel
    ensures forall r :: r in kernel.rules <==>
              r in old(kernel.rules) && (r.0 == obj.ifindex && r.1 in ids ==> r in fails)
  {
    var left := ids;
    while left != {}
      invariant left <= ids
      invariant forall r :: r in kernel.rules <==>
                  r in old(kernel.rules) && (r.0 == obj.ifindex && r.1 in ids - left ==> r in fails)
      decreases left
    {
      var id :| id in left;
      var ret := obj.DelFlow(kernel, id, fails);
      left := left - {id};
    }
  }

  /** One turn of the flow loop. */
  method DeleteFlowsOn(c: Instance, g: Shared, i: nat, env: Env)
    requires g.Valid() && c.Linked(g) && i in c.interfaces && i in c.flowIds
    modifies c, g, g.kernel, g.repr
    ensures unchanged(c) && unchanged(g) && unchanged(g.repr)
    ensures forall r :: r in g.kernel.rules <==>
              r in old(g.kernel.rules) && (r.0 == i && r.1 in c.flowIds[i] ==> r in env.delFails)
  {
    var obj := c.GetInterface(g, i, env);
    DeleteFlowsOf(obj, g.kernel, c.flowIds[i], env.delFails);
  }

  method DeleteFlows(c: Instance, g: Shared, env: Env)
    requires g.Valid() && c.Linked(g) && c.flowIds.Keys <= c.interfaces.Keys
    modifies c, g, g.kernel, g.repr
    ensures g.Valid() && unchanged(c) && unchanged(g)
    ensures g.View() == old(g.View()).(rules := Deleted(old(g.View()).rules, c.View(), c.flowIds.Keys, env.delFails))
  {
    ghost var done := {};
    var left := c.flowIds.Keys;
    while left != {}
      invariant left !! done && done + left == c.flowIds.Keys
      invariant unchanged(c) && unchanged(g) && unchanged(g.repr)
      invariant g.kernel.rules == Deleted(old(g.kernel.rules), c.View(), done, env.delFails)
      decreases left
    {
      var i :| i in left;
      DeleteFlowsOn(c, g, i, env);
      left, done := left - {i}, done + {i};
    }
    g.RulesChanged();
  }

  /** Gives up one shared pointer; the last one takes the object with it, and its flow rules. */
  method Drop(g: Shared, obj: Interface, env: Env)
    requires g.Valid() && obj.id in g.live && g.live[obj.id] == obj
    modifies g, g.kernel, g.repr
    ensures g.Valid() && g.repr == old(g.repr) && obj.uses == old(obj.uses) - 1
    ensures unchanged(g.repr - {obj})
    ensures g.live == if obj.uses == 0 then old(g.live) - {obj.id} else old(g.live)
    ensures var h := old(g.View());
            var f := h.ifaces[obj.id];
            g.View() == if f.uses <= 1
                        then h.(ifaces := h.ifaces - {obj.id},
                                rules := Cleared(h.rules, obj.ifindex, env))
                        else h.(ifaces := h.ifaces[obj.id := f.(uses := f.uses - 1)])
  {
    obj.uses := obj.uses - 1;
    if obj.uses > 0 {
      g.OnlyObjectChanged(obj);
    } else {
      g.live := g.live - {obj.id};
      Interface.ClearFlowRules(g.kernel, obj.ifindex, env);
      g.ObjectRemoved(obj);
    }
  }

  lemma RulesOneMore(g: Globals, c: Client, done: set<nat>, i: nat, o: nat, env: Env)
    requires Points(g, c, i, o) && i !in done
    ensures TornDown(g, c, done + {i}, env) ==
            if g.ifaces[o].uses <= 1 then Cleared(TornDown(g, c, done, env), i, env)
            else TornDown(g, c, done, env)
  {
  }

  lemma NothingDropped(g: Globals, c: Client, env: Env)
    ensures Dropped(g.ifaces, c, {}) == g.ifaces && TornDown(g, c, {}, env) == g.rules
  {
  }

  /** The pointers not yet dropped still lead to live objects. */
  ghost predicate StillLinked(c: Instance, g: Shared, left: set<nat>)
    reads c, g
  {
    forall i :: i in left ==>
      && i in c.interfaces
      && var f := c.interfaces[i];
         f.ifindex == i && f.id in g.live && g.live[f.id] == f
  }

  method DropTurn(c: Instance, g: Shared, i: nat, env: Env,
                  ghost h: Globals, ghost cv: Client, ghost done: set<nat>, ghost left: set<nat>)
    requires g.Valid() && i !in done && i in left && StillLinked(c, g, left)
    requires Points(h, cv, i, c.interfaces[i].id)
    requires g.View() == h.(ifaces := Dropped(h.ifaces, cv, done),
                            rules := TornDown(h, cv, done, env))
    modifies g, g.kernel, g.repr
    ensures g.Valid() && g.repr == old(g.repr) && StillLinked(c, g, left - {i}) && g.Within(old(g.live))
    ensures g.View() == h.(ifaces := Dropped(h.ifaces, cv, done + {i}),
                           rules := TornDown(h, cv, done + {i}, env))
  {
    var obj := c.interfaces[i];
    DroppedOneMore(h, cv, done, i, obj.id);
    RulesOneMore(h, cv, done, i, obj.id, env);
    Drop(g, obj, env);
  }

  lemma OneDone(left: set<nat>, done: set<nat>, all: set<nat>, i: nat)
    requires left !! done && done + left == all && i in left
    ensures left - {i} !! done + {i} && (done + {i}) + (left - {i}) == all
  {
  }

  method DropAll(c: Instance, g: Shared, env: Env, ghost h: Globals, ghost cv: Client)
    requires g.Valid() && c.Linked(g) && g.View() == h
    requires c.interfaces.Keys == cv.held.Keys
    requires forall i :: i in c.interfaces ==> Points(h, cv, i, c.interfaces[i].id)
    modifies g, g.kernel, g.repr
    ensures g.Valid() && g.repr == old(g.repr) && g.Within(old(g.live))
    ensures g.View() == h.(ifaces := Dropped(h.ifaces, cv, cv.held.Keys),
                           rules := TornDown(h, cv, cv.held.Keys, env))
  {
    ghost var done: set<nat> := {};
    var left := c.interfaces.Keys;
    NothingDropped(h, cv, env);
    while left != {}
      invariant left !! done && done + left == cv.held.Keys
      invariant g.Valid() && g.repr == old(g.repr) && StillLinked(c, g, left) && g.Within(old(g.live))
      invariant g.View() == h.(ifaces := Dropped(h.ifaces, cv, done),
                               rules := TornDown(h, cv, done, env))
      decreases left
    {
      var i :| i in left;
      DropTurn(c, g, i, env, h, cv, done, left);
      OneDone(left, done, cv.held.Keys, i);
      left, done := left - {i}, done + {i};
    }
    assert done == cv.held.Keys;
  }

  lemma LinkedPoints(c: Instance, g: Shared)
    requires g.Valid() && c.Linked(g)
    ensures c.View().held.Keys == c.interfaces.Keys
    ensures forall i :: i in c.interfaces ==> Points(g.View(), c.View(), i, c.interfaces[i].id)
  {
  }

  /** The body of the destructor, before its members are destroyed. */
  method GiveBack(c: Instance, g: Shared, env: Env)
    requires g.Valid() && c.Linked(g) && ClientOk(g.View(), c.View())
    modifies c, g, g.lcores.bs, g.kernel, g.repr
    ensures g.Valid() && unchanged(c) && unchanged(g)
    ensures var h, cv := old(g.View()), old(c.View());
            g.View() == h.(lcores := h.lcores - cv.lcores,
                           ifaces := Returned(h.ifaces, cv, cv.queues.Keys),
                           rules := Deleted(h.rules, cv, cv.flows.Keys, env.delFails))
  {
    LinkedPoints(c, g);
    ghost var h, cv := g.View(), c.View();
    ReleaseLcores(c, g);
    ReturnQueues(c, g, env, h, cv);
    DeleteFlows(c, g, env);
  }

  /** The whole destructor. */
  method Destroy(c: Instance, g: Shared, env: Env)
    requires g.Valid() && c.Linked(g) && ClientOk(g.View(), c.View())
    modifies c, g, g.lcores.bs, g.kernel, g.repr
    ensures g.Valid() && g.repr == old(g.repr) && g.Within(old(g.live))
    ensures g.View() == Leave(old(g.View()), old(c.View()), env)
  {
    ghost var h, cv := g.View(), c.View();
    GiveBack(c, g, env);
    LeaveInStages(h, g.View(), cv, env);
    LinkedPoints(c, g);
    DropAll(c, g, env, g.View(), cv);
  }
}
