/** Building the device parameters of the FFmpeg plugin from its options, and deciding whether a
    request may join the device that is already open. */
module DeviceParams {
  import opened Options
  import DmaList
  import Ports = DevicePorts

  // ---- Flag bits of `mtl_init_params` ----

  const BIND_NUMA: bv64 := 1
  const PTP_ENABLE: bv64 := 2
  const RX_SEPARATE_VIDEO_LCORE: bv64 := 4
  const TX_VIDEO_MIGRATE: bv64 := 8
  const RX_VIDEO_MIGRATE: bv64 := 16
  const PTP_PI: bv64 := 0x200
  const PTP_UNICAST_ADDR: bv64 := 0x8_0000_0000
  const DMA_AUTO: bv64 := 0x2_0000_0000_0000

  /** `MTL_FFMPEG_PTP_FLAGS`. */
  const PTP_FLAGS: bv64 := PTP_ENABLE | PTP_PI | PTP_UNICAST_ADDR

  /** The flags every request sets. */
  const BASE_FLAGS: bv64 := TX_VIDEO_MIGRATE | RX_VIDEO_MIGRATE | RX_SEPARATE_VIDEO_LCORE | BIND_NUMA

  /** `st21_tx_pacing_way`, in the order of its values. */
  datatype Pacing = Auto | RateLimit | Tsc | Tsn | Ptp | BestEffort | TscNarrow

  const PACING_WAYS: seq<(string, Pacing)> :=
    [("auto", Auto), ("rl", RateLimit), ("tsn", Tsn), ("tsc", Tsc), ("tsc_narrow", TscNarrow), ("ptp", Ptp),
     ("be", BestEffort)]

  datatype Args = Args(
    ports: seq<Ports.PortArg>,
    dmaDev: Option<string>,
    dmaAuto: bool,
    ptpEnable: bool,
    pacingWay: Option<string>,
    ptpPi: bool,
    ptpUnicast: bool)

  /** The fields that a request can influence; `userTime` says that the plugin's own clock callback
      is installed. All other fields are the same in every request. */
  datatype Params = Params(
    ports: seq<Ports.DevPort>,
    pacing: Pacing,
    flags: bv64,
    userTime: bool,
    dma: seq<string>)

  // ---- The specification ----

  /** The name of every pacing way. */
  function NameOf(p: Pacing): string {
    match p
    case Auto => "auto"
    case RateLimit => "rl"
    case Tsc => "tsc"
    case Tsn => "tsn"
    case Ptp => "ptp"
    case BestEffort => "be"
    case TscNarrow => "tsc_narrow"
  }

  ghost predicate PacingOk(way: Option<string>) {
    way.None? || exists p :: NameOf(p) == way.value
  }

  /** The pacing way of that name; automatic pacing is the default. */
  ghost function PacingOf(way: Option<string>): (p: Pacing)
    requires PacingOk(way)
    ensures if way.Some? then NameOf(p) == way.value else p == Auto
  {
    if way.None? then Auto else var p :| NameOf(p) == way.value; p
  }

  lemma NamesDiffer(p: Pacing, q: Pacing)
    requires NameOf(p) == NameOf(q)
    ensures p == q
  {
    assert |NameOf(p)| == |NameOf(q)| && NameOf(p)[0] == NameOf(q)[0];
    assert |NameOf(p)| == 3 ==> NameOf(p)[2] == NameOf(q)[2];
  }

  ghost predicate ArgsOk(a: Args) {
    && (a.ptpPi || a.ptpUnicast ==> a.ptpEnable)
    && PacingOk(a.pacingWay)
    && Ports.PortsOk(a.ports)
    && (a.dmaDev.Some? ==> DmaList.Acceptable(a.dmaDev.value))
  }

  function FlagsOf(a: Args): bv64 {
    BASE_FLAGS
    | (if a.ptpEnable then PTP_ENABLE else 0)
    | (if a.ptpEnable && a.ptpPi then PTP_PI else 0)
    | (if a.ptpEnable && a.ptpUnicast then PTP_UNICAST_ADDR else 0)
    | (if a.dmaAuto then DMA_AUTO else 0)
  }

  ghost function ParamsOf(a: Args): Params
    requires ArgsOk(a)
  {
    Params(Ports.Compact(a.ports),
           PacingOf(a.pacingWay),
           FlagsOf(a),
           !a.ptpEnable,
           if a.dmaDev.Some? then DmaList.Split(a.dmaDev.value) else [])
  }

  // ---- The code ----

  /** `mtl_parse_pacing_way`. */
  method ParsePacingWay(way: Option<string>) returns (r: Option<Pacing>)
    ensures way.None? || way.value == "auto" ==> r == Some(Auto)
    ensures way == Some("rl") ==> r == Some(RateLimit)
    ensures way == Some("tsn") ==> r == Some(Tsn)
    ensures way == Some("tsc") ==> r == Some(Tsc)
    ensures way == Some("tsc_narrow") ==> r == Some(TscNarrow)
    ensures way == Some("ptp") ==> r == Some(Ptp)
    ensures way == Some("be") ==> r == Some(BestEffort)
    ensures way.Some? && way.value !in ["auto", "rl", "tsn", "tsc", "tsc_narrow", "ptp", "be"] ==> r == None
    ensures r.Some? <==> PacingOk(way)
    ensures r.Some? ==> r.value == PacingOf(way)
  {
    r := LookUpPacing(way);
    if r.Some? && way.Some? {
      assert NameOf(Auto) == "auto" && NameOf(RateLimit) == "rl" && NameOf(Tsn) == "tsn" && NameOf(Tsc) == "tsc";
      assert NameOf(TscNarrow) == "tsc_narrow" && NameOf(Ptp) == "ptp" && NameOf(BestEffort) == "be";
      forall p | NameOf(p) == way.value ensures p == r.value { NamesDiffer(p, r.value); }
    } else if way.Some? {
      assert NameOf(Auto) == "auto" && NameOf(RateLimit) == "rl" && NameOf(Tsn) == "tsn" && NameOf(Tsc) == "tsc";
      assert NameOf(TscNarrow) == "tsc_narrow" && NameOf(Ptp) == "ptp" && NameOf(BestEffort) == "be";
    }
  }

  method LookUpPacing(way: Option<string>) returns (r: Option<Pacing>)
    ensures r.Some? <==> PacingOk(way)
    ensures r.Some? ==> r.value == PacingOf(way)
  {
    if way.None? { return Some(Auto); }
    var i := 0;
    while i < |PACING_WAYS|
      invariant 0 <= i <= |PACING_WAYS|
      invariant forall j :: 0 <= j < i ==> PACING_WAYS[j].0 != way.value
    {
      TableIsNames(i);
      if PACING_WAYS[i].0 == way.value {
        NamesDiffer(PACING_WAYS[i].1, PacingOf(way));
        return Some(PACING_WAYS[i].1);
      }
      i := i + 1;
    }
    if PacingOk(way) { var j := TableHas(PacingOf(way)); }
    return None;
  }

  lemma TableIsNames(i: nat)
    requires i < |PACING_WAYS|
    ensures PACING_WAYS[i].0 == NameOf(PACING_WAYS[i].1)
  {
  }

  /** Every pacing way is in the table. */
  lemma TableHas(p: Pacing) returns (i: nat)
    ensures i < |PACING_WAYS| && PACING_WAYS[i] == (NameOf(p), p)
  {
    i := match p case Auto => 0 case RateLimit => 1 case Tsn => 2 case Tsc => 3 case TscNarrow => 4 case Ptp => 5 case BestEffort => 6;
  }

  /** The options that `mtl_dev_build_params` accepts, and the flags, the clock and the names it derives
      from them, bit for bit. */
  lemma ParamsAre(a: Args)
    ensures ArgsOk(a) <==>
            && (a.ptpPi || a.ptpUnicast ==> a.ptpEnable)
            && (a.pacingWay.Some? ==> a.pacingWay.value in ["auto", "rl", "tsn", "tsc", "tsc_narrow", "ptp", "be"])
            && (forall i :: 0 <= i < |a.ports| && a.ports[i].name.Some? ==>
                  && |a.ports[i].name.value| < 64 && !a.ports[i].sip.BadAddr?
                  && 0 <= a.ports[i].txQueues <= 65535 && 0 <= a.ports[i].rxQueues <= 65535)
            && (a.dmaDev.Some? ==>
                  && |a.dmaDev.value| < 128 && "" !in DmaList.Split(a.dmaDev.value)
                  && |DmaList.Split(a.dmaDev.value)| <= 32
                  && forall t :: t in DmaList.Split(a.dmaDev.value) ==> |t| < 64)
    ensures ArgsOk(a) ==>
              var p := ParamsOf(a);
              && p.ports == Ports.Compact(a.ports)
              && p.userTime == !a.ptpEnable
              && p.flags == 0x1D | (if a.ptpEnable then 0x2 else 0) | (if a.ptpPi then 0x200 else 0)
                            | (if a.ptpUnicast then 0x8_0000_0000 else 0) | (if a.dmaAuto then 0x2_0000_0000_0000 else 0)
              && (a.dmaDev.None? ==> p.dma == [])
              && (a.dmaDev.Some? ==> DmaList.Join(p.dma) == a.dmaDev.value && forall t :: t in p.dma ==> ',' !in t)
  {
    PacingNames(a.pacingWay);
    assert Ports.PortsOk(a.ports) <==> forall i :: 0 <= i < |a.ports| ==> Ports.PortOk(a.ports[i]);
    if a.dmaDev.Some? {
      DmaList.JoinSplit(a.dmaDev.value);
      DmaList.EntriesHaveNoComma(a.dmaDev.value);
    }
  }

  lemma PacingNames(way: Option<string>)
    ensures PacingOk(way) <==>
            way.None? || way.value in ["auto", "rl", "tsn", "tsc", "tsc_narrow", "ptp", "be"]
  {
    assert NameOf(Auto) == "auto" && NameOf(RateLimit) == "rl" && NameOf(Tsn) == "tsn" && NameOf(Tsc) == "tsc";
    assert NameOf(TscNarrow) == "tsc_narrow" && NameOf(Ptp) == "ptp" && NameOf(BestEffort) == "be";
  }

  /** `mtl_dev_build_params`: succeeds exactly on acceptable options, with the specified result. */
  method BuildParams(a: Args) returns (r: Option<Params>)
    ensures r.Some? <==> ArgsOk(a)
    ensures r.Some? ==> r.value == ParamsOf(a)
  {
    if !a.ptpEnable && (a.ptpPi || a.ptpUnicast) { return None; }
    var pacing := ParsePacingWay(a.pacingWay);
    if pacing.None? { return None; }
    var ports := Ports.BuildPorts(a.ports);
    if ports.None? { return None; }
    var flags := TX_VIDEO_MIGRATE;
    flags := flags | RX_VIDEO_MIGRATE;
    flags := flags | RX_SEPARATE_VIDEO_LCORE;
    flags := flags | BIND_NUMA;
    var userTime := false;
    if a.ptpEnable {
      flags := flags | PTP_ENABLE;
      if a.ptpPi { flags := flags | PTP_PI; }
      if a.ptpUnicast { flags := flags | PTP_UNICAST_ADDR; }
    } else {
      userTime := true;
    }
    if a.dmaAuto { flags := flags | DMA_AUTO; }
    assert flags == FlagsOf(a);
    var dma: seq<string> := [];
    if a.dmaDev.Some? {
      var devs := DmaList.Parse(a.dmaDev.value);
      if devs.None? { return None; }
      dma := devs.value;
    }
    return Some(Params(ports.value, pacing.value, flags, userTime, dma));
  }

  /** `mtl_dev_params_compatible`: a request that wants PTP must want the active PTP flags; apart
      from PTP flags and the clock callback, everything must be equal. */
  predicate Compatible(requested: Params, active: Params) {
    && !((requested.flags & PTP_FLAGS) & PTP_ENABLE != 0
         && requested.flags & PTP_FLAGS != active.flags & PTP_FLAGS)
    && requested.(flags := requested.flags & !PTP_FLAGS, userTime := false)
       == active.(flags := active.flags & !PTP_FLAGS, userTime := false)
  }

  lemma CompatibleIsReflexive(p: Params)
    ensures Compatible(p, p)
  {
  }

  lemma CompatibleIsTransitive(p: Params, q: Params, r: Params)
    requires Compatible(p, q) && Compatible(q, r)
    ensures Compatible(p, r)
  {
  }

  /** The pacing way a request asks for, by name. */
  function WayOf(a: Args): string {
    if a.pacingWay.Some? then a.pacingWay.value else "auto"
  }

  /** Two requests want the same device resources. */
  ghost predicate SameResources(a: Args, b: Args)
    requires ArgsOk(a) && ArgsOk(b)
  {
    && Ports.Compact(a.ports) == Ports.Compact(b.ports)
    && WayOf(a) == WayOf(b) && a.dmaAuto == b.dmaAuto && a.dmaDev == b.dmaDev
  }

  /** The parameters that stand for resources are equal exactly if the options are. */
  lemma SameParams(a: Args, b: Args)
    requires ArgsOk(a) && ArgsOk(b)
    ensures ParamsOf(a).pacing == ParamsOf(b).pacing <==> WayOf(a) == WayOf(b)
    ensures ParamsOf(a).dma == ParamsOf(b).dma <==> a.dmaDev == b.dmaDev
  {
    assert NameOf(Auto) == "auto";
    assert NameOf(ParamsOf(a).pacing) == WayOf(a) && NameOf(ParamsOf(b).pacing) == WayOf(b);
    if WayOf(a) == WayOf(b) { NamesDiffer(ParamsOf(a).pacing, ParamsOf(b).pacing); }
    if a.dmaDev.Some? { DmaList.JoinSplit(a.dmaDev.value); }
    if b.dmaDev.Some? { DmaList.JoinSplit(b.dmaDev.value); }
  }

  lemma FlagBits(a: Args)
    requires a.ptpPi || a.ptpUnicast ==> a.ptpEnable
    ensures FlagsOf(a) & PTP_ENABLE != 0 <==> a.ptpEnable
    ensures FlagsOf(a) & PTP_PI != 0 <==> a.ptpPi
    ensures FlagsOf(a) & PTP_UNICAST_ADDR != 0 <==> a.ptpUnicast
    ensures FlagsOf(a) & !PTP_FLAGS == BASE_FLAGS | (if a.dmaAuto then DMA_AUTO else 0)
  {
  }

  /** What the bit masks mean for the options: a request fits the device opened by `active` exactly
      when it wants the same resources and either no PTP or the very same PTP options. */
  lemma CompatibleMeaning(requested: Args, active: Args)
    requires ArgsOk(requested) && ArgsOk(active)
    ensures Compatible(ParamsOf(requested), ParamsOf(active)) <==>
            && Ports.Compact(requested.ports) == Ports.Compact(active.ports)
            && WayOf(requested) == WayOf(active)
            && requested.dmaAuto == active.dmaAuto && requested.dmaDev == active.dmaDev
            && (requested.ptpEnable ==>
                  && active.ptpEnable
                  && active.ptpPi == requested.ptpPi
                  && active.ptpUnicast == requested.ptpUnicast)
  {
    SameParams(requested, active);
    FlagBits(requested);
    FlagBits(active);
    PtpBits(requested, active);
  }

  lemma PtpBits(a: Args, b: Args)
    requires a.ptpPi || a.ptpUnicast ==> a.ptpEnable
    requires b.ptpPi || b.ptpUnicast ==> b.ptpEnable
    ensures FlagsOf(a) & PTP_FLAGS == FlagsOf(b) & PTP_FLAGS <==>
            a.ptpEnable == b.ptpEnable && a.ptpPi == b.ptpPi && a.ptpUnicast == b.ptpUnicast
    ensures (FlagsOf(a) & PTP_FLAGS) & PTP_ENABLE != 0 <==> a.ptpEnable
    ensures FlagsOf(a) & !PTP_FLAGS == FlagsOf(b) & !PTP_FLAGS <==> a.dmaAuto == b.dmaAuto
  {
  }
}
