/** The one device handle that all sessions of the FFmpeg plugin share. Every operation runs under
    one mutex, so a concurrent execution is a sequence of `Get` and `Put` steps. */
module SharedDevice {
  import opened Options
  import opened DeviceParams
  import Ports = DevicePorts

  /** Handle 0 stands for NULL. */
  type Handle = nat
  type Session = nat

  /** Calls into the library, in order. `Init` records the handle that was returned. */
  datatype Call = Init(handle: Handle) | Uninit(handle: Handle)

  datatype Device = Device(handle: Handle, refCnt: int, params: Params, calls: seq<Call>)

  const ZERO_PARAMS := Params([], Auto, 0, false, [])
  const CLOSED := Device(0, 0, ZERO_PARAMS, [])

  /** `mtl_dev_get` joins the open device. */
  ghost predicate Joins(d: Device, a: Args) {
    d.handle != 0 && ArgsOk(a) && Compatible(ParamsOf(a), d.params)
  }

  /** `mtl_dev_get` asks the library for a new device. */
  ghost predicate Opens(d: Device, a: Args) {
    d.handle == 0 && ArgsOk(a)
  }

  /** State after `mtl_dev_get`; `made` is what the library returns if it is asked. */
  ghost function AfterGet(d: Device, a: Args, made: Handle): Device {
    if Joins(d, a) then d.(refCnt := d.refCnt + 1)
    else if !Opens(d, a) then d
    else if made == 0 then d.(calls := d.calls + [Init(0)])
    else Device(made, 1, ParamsOf(a), d.calls + [Init(made)])
  }

  /** The handle that `mtl_dev_get` returns. */
  ghost function Given(d: Device, a: Args, made: Handle): Handle {
    if Joins(d, a) then d.handle else if Opens(d, a) then made else 0
  }

  /** State after `mtl_instance_put`. */
  function AfterPut(d: Device, h: Handle): Device {
    if h != d.handle then d
    else if d.refCnt > 1 then d.(refCnt := d.refCnt - 1)
    else Device(0, d.refCnt - 1, ZERO_PARAMS, d.calls + [Uninit(h)])
  }

  // ---- The code ----

  class SharedHandle {
    var handle: Handle
    var refCnt: int
    var params: Params
    /** The library's own view of what was asked of it. */
    ghost var calls: seq<Call>

    ghost function View(): Device
      reads this
    {
      Device(handle, refCnt, params, calls)
    }

    constructor ()
      ensures View() == CLOSED
    {
      handle, refCnt, params, calls := 0, 0, ZERO_PARAMS, [];
    }

    /** `mtl_dev_get`. */
    method Get(a: Args, made: Handle) returns (h: Handle)
      modifies this
      ensures View() == AfterGet(old(View()), a, made)
      ensures h == Given(old(View()), a, made)
    {
      var p := BuildParams(a);
      if p.None? { return 0; }
      if handle != 0 {
        if !Compatible(p.value, params) { return 0; }
        refCnt := refCnt + 1;
        return handle;
      }
      h := made;
      calls := calls + [Init(h)];
      if h == 0 { return; }
      handle := h;
      params := p.value;
      refCnt := 1;
    }

    /** `mtl_instance_put`. */
    method Put(h: Handle) returns (ok: bool)
      modifies this
      ensures View() == AfterPut(old(View()), h)
      ensures ok == (h == old(handle))
    {
      if h != handle { return false; }
      refCnt := refCnt - 1;
      if refCnt <= 0 {
        calls := calls + [Uninit(h)];
        handle := 0;
        params := ZERO_PARAMS;
      }
      return true;
    }
  }

  // ---- Runs of many sessions ----

  /** What a session remembers: its handle, and the options it asked for. */
  datatype Holding = Holding(handle: Handle, args: Args)

  datatype World = World(device: Device, holders: map<Session, Holding>)

  /** `Open` stores the handle it got in the session (NULL means that it holds nothing); `Close`
      puts a handle that is not NULL and forgets it; `StrayPut` is any other call of the put. */
  datatype Event =
    | Open(session: Session, args: Args, made: Handle)
    | Close(session: Session)
    | StrayPut(handle: Handle)

  ghost function Step(w: World, e: Event): World {
    match e
    case Open(s, a, made) =>
      var h := Given(w.device, a, made);
      World(AfterGet(w.device, a, made),
            if h == 0 then w.holders - {s} else w.holders[s := Holding(h, a)])
    case Close(s) =>
      if s !in w.holders then w
      else World(AfterPut(w.device, w.holders[s].handle), w.holders - {s})
    case StrayPut(h) => w.(device := AfterPut(w.device, h))
  }

  ghost function Exec(es: seq<Event>): World {
    if es == [] then World(CLOSED, map[])
    else Step(Exec(es[..|es| - 1]), es[|es| - 1])
  }

  // ---- In every run: at most one device, opened and closed in turn ----

  datatype Liveness = Idle | Live(handle: Handle) | Broken

  /** Replays the library calls: an open while a device lives, or a close of anything but the living
      device, is `Broken`. A failed open and a close of NULL have no effect on the library. */
  function Replay(calls: seq<Call>): Liveness {
    if calls == [] then Idle else
    match (Replay(calls[..|calls| - 1]), calls[|calls| - 1])
    case (Idle, Init(h)) => if h == 0 then Idle else Live(h)
    case (Idle, Uninit(h)) => if h == 0 then Idle else Broken
    case (Live(l), Uninit(h)) => if h == l then Idle else Broken
    case (_, _) => Broken
  }

  ghost predicate Alternating(d: Device) {
    && Replay(d.calls) == (if d.handle == 0 then Idle else Live(d.handle))
    && (d.handle == 0 ==> d.refCnt <= 0 && d.params == ZERO_PARAMS)
    && (d.handle != 0 ==> d.refCnt > 0)
  }

  lemma ReplayAppend(calls: seq<Call>, c: Call)
    ensures (calls + [c])[..|calls|] == calls
  {
  }

  lemma GetAlternates(d: Device, a: Args, made: Handle)
    requires Alternating(d)
    ensures Alternating(AfterGet(d, a, made))
  {
    ReplayAppend(d.calls, Init(made));
  }

  lemma PutAlternates(d: Device, h: Handle)
    requires Alternating(d)
    ensures Alternating(AfterPut(d, h))
  {
    ReplayAppend(d.calls, Uninit(h));
  }

  /** However the sessions behave, opens and closes of the device strictly alternate, each close
      names the device opened last, and the stored handle is the living device. */
  lemma {:induction false} DevicesAlternate(es: seq<Event>)
    ensures Alternating(Exec(es).device)
  {
    if es != [] {
      var w, e := Exec(es[..|es| - 1]), es[|es| - 1];
      DevicesAlternate(es[..|es| - 1]);
      match e
      case Open(_, a, made) => GetAlternates(w.device, a, made);
      case Close(s) => if s in w.holders { PutAlternates(w.device, w.holders[s].handle); }
      case StrayPut(h) => PutAlternates(w.device, h);
    }
  }

  // ---- Counting the holders ----

  ghost predicate Holder(x: Holding, d: Device) {
    && x.handle == d.handle
    && ArgsOk(x.args)
    && Compatible(ParamsOf(x.args), d.params)
  }

  /** The count is the number of holders, a device is open exactly when somebody holds it, and every
      holder has the open device with parameters that suit its own options. */
  ghost predicate Counted(w: World) {
    && w.device.refCnt == |w.holders|
    && (w.device.handle != 0 <==> w.holders != map[])
    && forall s <- w.holders :: Holder(w.holders[s], w.device)
  }

  /** Puts that belong to no session must miss, and a session must not reopen before it closes. */
  ghost predicate Proper(w: World, e: Event) {
    match e
    case Open(s, _, _) => s !in w.holders
    case Close(_) => true
    case StrayPut(h) => h != w.device.handle
  }

  lemma SizeWithout(m: map<Session, Holding>, s: Session)
    ensures |m - {s}| == |m| - (if s in m then 1 else 0)
  {
    assert (m - {s}).Keys == m.Keys - {s};
  }

  lemma SizeWith(m: map<Session, Holding>, s: Session, x: Holding)
    ensures |m[s := x]| == |m| + (if s in m then 0 else 1)
  {
    assert m[s := x].Keys == m.Keys + {s};
  }

  /** A session that opens for the second time loses its first holding, or counts twice. */
  lemma ReopenMiscounts(w: World, s: Session, a: Args, made: Handle)
    requires Counted(w) && s in w.holders
    ensures !Counted(Step(w, Open(s, a, made)))
  {
    SizeWithout(w.holders, s);
    SizeWith(w.holders, s, Holding(Given(w.device, a, made), a));
    assert w.device.handle != 0;
  }

  lemma OneMoreHolder(holders: map<Session, Holding>, s: Session, x: Holding, d: Device)
    requires s !in holders && d.refCnt == |holders| + 1 && d.handle != 0 && Holder(x, d)
    requires forall t <- holders :: Holder(holders[t], d)
    ensures Counted(World(d, holders[s := x]))
  {
    SizeWith(holders, s, x);
    assert s in holders[s := x];
  }

  lemma OpenIsCounted(w: World, s: Session, a: Args, made: Handle)
    requires Counted(w) && s !in w.holders
    ensures Counted(Step(w, Open(s, a, made)))
  {
    if Given(w.device, a, made) == 0 {
      assert w.holders - {s} == w.holders;
      RefusedKeeps(w.device, a, made);
      forall t <- w.holders ensures Holder(w.holders[t], AfterGet(w.device, a, made)) {
        SameHandle(w.holders[t], w.device, AfterGet(w.device, a, made));
      }
    } else {
      AdmittedIsCounted(w, s, a, made);
    }
  }

  lemma RefusedKeeps(d: Device, a: Args, made: Handle)
    requires Given(d, a, made) == 0
    ensures AfterGet(d, a, made) == d.(calls := AfterGet(d, a, made).calls)
  {
  }

  lemma SameHandle(x: Holding, d: Device, e: Device)
    requires Holder(x, d) && e.handle == d.handle && e.params == d.params
    ensures Holder(x, e)
  {
  }

  lemma AdmittedIsCounted(w: World, s: Session, a: Args, made: Handle)
    requires Counted(w) && s !in w.holders && Given(w.device, a, made) != 0
    ensures Counted(World(AfterGet(w.device, a, made), w.holders[s := Holding(Given(w.device, a, made), a)]))
  {
    NewHolder(w.device, a, made);
    var d := AfterGet(w.device, a, made);
    forall t <- w.holders ensures Holder(w.holders[t], d) {
      OldHolder(w.holders[t], w.device, a, made);
    }
    GetCounts(w, a, made);
    OneMoreHolder(w.holders, s, Holding(Given(w.device, a, made), a), d);
  }

  lemma GetCounts(w: World, a: Args, made: Handle)
    requires w.device.refCnt == |w.holders| && (w.device.handle != 0 <==> w.holders != map[])
    requires Given(w.device, a, made) != 0
    ensures AfterGet(w.device, a, made).refCnt == |w.holders| + 1 && AfterGet(w.device, a, made).handle != 0
  {
  }

  lemma OldHolder(x: Holding, d: Device, a: Args, made: Handle)
    requires Holder(x, d) && d.handle != 0
    ensures Holder(x, AfterGet(d, a, made))
  {
  }

  lemma NewHolder(d: Device, a: Args, made: Handle)
    requires Given(d, a, made) != 0
    ensures Holder(Holding(Given(d, a, made), a), AfterGet(d, a, made))
  {
    if Opens(d, a) { CompatibleIsReflexive(ParamsOf(a)); }
  }

  lemma CloseIsCounted(w: World, s: Session)
    requires Counted(w)
    ensures Counted(Step(w, Close(s)))
  {
    if s in w.holders {
      var w' := Step(w, Close(s));
      SizeWithout(w.holders, s);
      forall t <- w'.holders ensures Holder(w'.holders[t], w'.device) {
        assert t in w'.holders.Keys && t in w.holders;
        assert |w'.holders| > 0;
      }
    }
  }

  /** From a well-counted state, a step keeps the count right exactly when it is proper. */
  lemma StepIsCountedIff(w: World, e: Event)
    requires Counted(w)
    ensures Counted(Step(w, e)) <==> Proper(w, e)
  {
    match e
    case Open(s, a, made) =>
      if s in w.holders { ReopenMiscounts(w, s, a, made); } else { OpenIsCounted(w, s, a, made); }
    case Close(s) => CloseIsCounted(w, s);
    case StrayPut(_) =>
  }

  ghost predicate AlwaysCounted(es: seq<Event>) {
    && Counted(Exec(es))
    && (es != [] ==> AlwaysCounted(es[..|es| - 1]))
  }

  ghost predicate AllProper(es: seq<Event>) {
    es != [] ==>
      && AllProper(es[..|es| - 1])
      && Proper(Exec(es[..|es| - 1]), es[|es| - 1])
  }

  /** The lifecycle theorem: the count is right all along a run exactly when every step is proper. */
  lemma {:induction false} CountedIffProper(es: seq<Event>)
    ensures AlwaysCounted(es) <==> AllProper(es)
  {
    if es != [] {
      var before := es[..|es| - 1];
      CountedIffProper(before);
      if AlwaysCounted(before) { StepIsCountedIff(Exec(before), es[|es| - 1]); }
    }
  }

  /** No holder's device is closed under it, and the last one to leave closes it. */
  lemma HoldersKeepTheDevice(es: seq<Event>, s: Session)
    requires AllProper(es)
    ensures s in Exec(es).holders ==> Replay(Exec(es).device.calls) == Live(Exec(es).holders[s].handle)
    ensures Exec(es).holders == map[] ==> Replay(Exec(es).device.calls) == Idle
  {
    CountedIffProper(es);
    DevicesAlternate(es);
  }

  lemma FitsAgree(a: Args, b: Args, active: Params)
    requires ArgsOk(a) && Compatible(ParamsOf(a), active)
    requires ArgsOk(b) && Compatible(ParamsOf(b), active)
    ensures SameResources(a, b)
    ensures a.ptpEnable ==> active.flags & PTP_FLAGS == FlagsOf(a) & PTP_FLAGS
    ensures a.ptpEnable && b.ptpEnable ==> a.ptpPi == b.ptpPi && a.ptpUnicast == b.ptpUnicast
  {
    PtpBits(a, b);
    PtpBits(b, a);
    SameParams(a, b);
  }

  /** Any two holders want the same resources, those that want PTP want the same PTP options, and
      the open device has exactly those flags. */
  lemma HoldersAgree(es: seq<Event>, s: Session, t: Session)
    requires AllProper(es)
    requires s in Exec(es).holders && t in Exec(es).holders
    ensures var d := Exec(es).device;
            var a, b := Exec(es).holders[s].args, Exec(es).holders[t].args;
            && ArgsOk(a) && ArgsOk(b) && SameResources(a, b)
            && (a.ptpEnable ==> d.params.flags & PTP_FLAGS == FlagsOf(a) & PTP_FLAGS)
            && (a.ptpEnable && b.ptpEnable ==> a.ptpPi == b.ptpPi && a.ptpUnicast == b.ptpUnicast)
  {
    CountedIffProper(es);
    var w := Exec(es);
    assert Holder(w.holders[s], w.device) && Holder(w.holders[t], w.device);
    FitsAgree(w.holders[s].args, w.holders[t].args, w.device.params);
  }

  // ---- Who is let in ----

  /** The options of the session that opened the device which is open after these events. */
  ghost function OpenerOf(es: seq<Event>): Option<Args> {
    if es == [] || Exec(es).device.handle == 0 then None else
    var init, e := es[..|es| - 1], es[|es| - 1];
    if Exec(init).device.handle == 0 && e.Open? then Some(e.args) else OpenerOf(init)
  }

  lemma StepKeepsParams(w: World, e: Event)
    ensures var w' := Step(w, e);
            w'.device.handle != 0 ==>
              if w.device.handle == 0 then e.Open? && ArgsOk(e.args) && w'.device.params == ParamsOf(e.args)
              else w'.device.params == w.device.params
  {
  }

  lemma {:induction false} OpenerIs(es: seq<Event>)
    requires Exec(es).device.handle != 0
    ensures OpenerOf(es).Some? && ArgsOk(OpenerOf(es).value)
    ensures Exec(es).device.params == ParamsOf(OpenerOf(es).value)
  {
    var init, e := es[..|es| - 1], es[|es| - 1];
    StepKeepsParams(Exec(init), e);
    if Exec(init).device.handle != 0 { OpenerIs(init); }
  }

  /** The request wants what the opener wanted: the same ports, pacing and DMA options, and PTP not at
      all or with the same options. */
  lemma FitsOpenerIff(es: seq<Event>, a: Args)
    requires Exec(es).device.handle != 0 && ArgsOk(a)
    ensures OpenerOf(es).Some? && ArgsOk(OpenerOf(es).value)
    ensures var o := OpenerOf(es).value;
            Compatible(ParamsOf(a), Exec(es).device.params) <==>
            && Ports.Compact(a.ports) == Ports.Compact(o.ports) && WayOf(a) == WayOf(o)
            && a.dmaAuto == o.dmaAuto && a.dmaDev == o.dmaDev
            && (a.ptpEnable ==> o.ptpEnable && o.ptpPi == a.ptpPi && o.ptpUnicast == a.ptpUnicast)
  {
    OpenerIs(es);
    CompatibleMeaning(a, OpenerOf(es).value);
  }

  lemma OpenIs(w: World, s: Session, a: Args, made: Handle)
    requires s !in w.holders
    ensures var w' := Step(w, Open(s, a, made));
            var fits := ArgsOk(a) && (if w.device.handle != 0 then Compatible(ParamsOf(a), w.device.params) else made != 0);
            var h := if w.device.handle != 0 then w.device.handle else made;
            && (fits ==> w'.holders == w.holders[s := Holding(h, a)] && w'.device.handle == h)
            && (fits ==> w'.device.refCnt == (if w.device.handle != 0 then w.device.refCnt + 1 else 1))
            && (!fits ==> w'.holders == w.holders && w'.device == w.device.(calls := w'.device.calls))
  {
    assert w.holders - {s} == w.holders;
  }

  /** Who is let in, however many sessions there are. In a proper run a session that opens gets the
      device exactly if its options are acceptable and, if a device is open, they want what its opener
      wanted, else the library makes one. It then holds the living device together with all the
      others, and the count goes up by one; a session that is refused changes nothing. */
  lemma AdmittedIff(es: seq<Event>, s: Session, a: Args, made: Handle)
    requires AllProper(es) && s !in Exec(es).holders
    ensures Exec(es).holders != map[] ==> OpenerOf(es).Some? && ArgsOk(OpenerOf(es).value)
    ensures var w, w' := Exec(es), Exec(es + [Open(s, a, made)]);
            && (s in w'.holders <==>
                && ArgsOk(a)
                && if w.holders == map[] then made != 0
                   else
                     var o := OpenerOf(es).value;
                     && Ports.Compact(a.ports) == Ports.Compact(o.ports) && WayOf(a) == WayOf(o)
                     && a.dmaAuto == o.dmaAuto && a.dmaDev == o.dmaDev
                     && (a.ptpEnable ==> o.ptpEnable && o.ptpPi == a.ptpPi && o.ptpUnicast == a.ptpUnicast))
            && (s in w'.holders ==>
                && w'.holders == w.holders[s := Holding(w'.device.handle, a)]
                && Replay(w'.device.calls) == Live(w'.device.handle)
                && (forall t <- w.holders :: w.holders[t].handle == w'.device.handle)
                && w'.device.refCnt == w.device.refCnt + 1 == |w.holders| + 1)
            && (s !in w'.holders ==> w'.holders == w.holders && w'.device.refCnt == w.device.refCnt)
  {
    var e := Open(s, a, made);
    var w := Exec(es);
    ExecAppend(es, e);
    CountedIffProper(es);
    DevicesAlternate(es + [e]);
    OpenIs(w, s, a, made);
    if w.device.handle != 0 {
      OpenerIs(es);
      if ArgsOk(a) { FitsOpenerIff(es, a); }
    } else {
      assert |w.holders| == 0;
    }
    forall t <- w.holders ensures w.holders[t].handle == w.device.handle { assert Holder(w.holders[t], w.device); }
  }

  // ---- What improper steps do ----

  /** Putting NULL while nothing is open asks the library to close NULL and makes the count
      negative; the next successful open starts from one again. */
  lemma PutNullWhileClosed(d: Device, a: Args, made: Handle)
    requires Alternating(d) && d.handle == 0 && ArgsOk(a) && made != 0
    ensures AfterPut(d, 0) == d.(refCnt := d.refCnt - 1, calls := d.calls + [Uninit(0)])
    ensures AfterPut(d, 0).refCnt < 0
    ensures AfterGet(AfterPut(d, 0), a, made) == Device(made, 1, ParamsOf(a), d.calls + [Uninit(0), Init(made)])
  {
  }

  /** Two sessions, one of which puts its handle twice: the other is left with a closed device. */
  lemma DoublePutClosesForOthers(a: Args, h: Handle)
    requires ArgsOk(a) && h != 0
    ensures var w := Exec([Open(0, a, h), Open(1, a, h), Close(0), StrayPut(h)]);
            w.holders == map[1 := Holding(h, a)] && Replay(w.device.calls) == Idle
  {
    CompatibleIsReflexive(ParamsOf(a));
    var w0 := World(CLOSED, map[]);
    var w1 := World(Device(h, 1, ParamsOf(a), [Init(h)]), map[0 := Holding(h, a)]);
    var w3 := World(Device(h, 1, ParamsOf(a), [Init(h)]), map[1 := Holding(h, a)]);
    ExecAppend([], Open(0, a, h));
    ExecAppend([Open(0, a, h)], Open(1, a, h));
    ExecAppend([Open(0, a, h), Open(1, a, h)], Close(0));
    ExecAppend([Open(0, a, h), Open(1, a, h), Close(0)], StrayPut(h));
    assert [Open(0, a, h)] == [] + [Open(0, a, h)];
    assert [Open(0, a, h), Open(1, a, h)] == [Open(0, a, h)] + [Open(1, a, h)];
    assert [Open(0, a, h), Open(1, a, h), Close(0)] == [Open(0, a, h), Open(1, a, h)] + [Close(0)];
    assert [Open(0, a, h), Open(1, a, h), Close(0), StrayPut(h)]
        == [Open(0, a, h), Open(1, a, h), Close(0)] + [StrayPut(h)];
    assert Step(w0, Open(0, a, h)) == w1;
    assert Step(Step(w1, Open(1, a, h)), Close(0)) == w3;
    DevicesAlternate([Open(0, a, h), Open(1, a, h), Close(0), StrayPut(h)]);
  }

  lemma ExecAppend(es: seq<Event>, e: Event)
    ensures Exec(es + [e]) == Step(Exec(es), e)
  {
    assert (es + [e])[..|es|] == es;
  }
}
