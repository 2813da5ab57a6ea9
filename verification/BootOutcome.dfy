/** Which boots reach the kata-agent. */
module BootOutcome {
  import opened Text
  import opened System
  import opened Nvrc
  import opened Daemon
  import opened Topology
  import opened KernelParams
  import Infiniband
  import opened ExtensionMounts
  import opened Boot
  import opened BootSafety
  import opened BootMounts
  import opened BootSettings

  // ---------- What has to succeed ----------

  lemma AllSucceedEnds(h: History, script: seq<Action>, replies: Replies)
    requires Ends(h, script, replies)
    ensures h.power == HandedOver <==> forall i :: 0 <= i < |script| ==> Succeeds(script[i], replies(i))
  {
    var last := |h.trace| - 1;
    assert h.trace[last] == script[last];
    if h.power == HandedOver {
      forall i | 0 <= i < |script| ensures Succeeds(script[i], replies(i)) {
        assert i < last ==> Succeeds(h.trace[i], replies(i));
      }
    }
  }

  /** The kata-agent is reached exactly when every action of the plan succeeds. */
  lemma HandsOverExactly(w: World, replies: Replies)
    ensures BootRun(w, replies).power == HandedOver <==>
              forall i :: 0 <= i < |BootPlan(w).script| ==> Succeeds(BootPlan(w).script[i], replies(i))
  {
    EveryBootEnds(w, replies);
    AllSucceedEnds(BootRun(w, replies), BootPlan(w).script, replies);
  }

  // ---------- Which inputs NVRC accepts ----------

  /** The command line can be read, each of its clock and power values is a u32 numeral, and each log write that it
      asks for succeeds. */
  predicate ParamsAccepted(w: World) {
    && w.cmdline.Some?
    && (forall t <- TokensOf(w) :: !BadNumber(t))
    && forall n :: 0 <= n < Occurrences(TokensOf(w), Log) ==> w.devkmsg(n)
  }

  function BlocksOf(w: World): seq<Block> {
    if w.blocks.Some? then w.blocks.value else []
  }

  predicate OnCommandLine(w: World, name: string) {
    exists t <- TokensOf(w) :: Extensions.ExtensionName(t.0) == Some(name)
  }

  predicate OnDevice(w: World, name: string) {
    exists b <- BlocksOf(w) :: SerialName(b.1) == Some(name)
  }

  predicate HasPartitions(dir: Option<seq<Partition>>) {
    && dir.Some?
    && (exists p <- dir.value :: Numbered(p, "1")) && (exists p <- dir.value :: Numbered(p, "2"))
  }

  /** All parameters for extensions are complete and in order, all extension devices have a valid name, both name the
      same extensions, and each such device has a data and a hash partition. */
  ghost predicate ExtensionsAccepted(w: World) {
    && (forall t <- TokensOf(w) :: Extensions.PairAccepted(t))
    && (forall b <- BlocksOf(w) :: SerialName(b.1).Some? ==> ValidName(SerialName(b.1).value))
    && (forall name :: OnCommandLine(w, name) <==> OnDevice(w, name))
    && (forall b <- BlocksOf(w) :: SerialName(b.1).Some? ==> HasPartitions(w.partitions(b.0)))
  }

  /** Neither NVSwitches nor bridges; or no or eight GPUs beside four of the one and none of the other, where bridges
      need a device that qualifies for managing them. */
  predicate TopologyAccepted(w: World) {
    var nvswitches, gpus, bridges := CountOn(w.pci, IsNvswitch), Gpus(w.pci), CountOn(w.pci, IsSwMng);
    || nvswitches == bridges == 0
    || ((gpus == 0 || gpus == 8) && nvswitches == 4 && bridges == 0)
    || ((gpus == 0 || gpus == 8) && nvswitches == 0 && bridges == 4
        && w.ib.Entries? && exists d <- w.ib.devices :: Infiniband.Qualifies(d))
  }

  /** The same in terms of detection. */
  lemma TopologyExactly(w: World)
    ensures TopologyAccepted(w) <==>
              Detect(w.pci).Ok? && (Detect(w.pci).value.nvswitch == Some(Nvl5) ==> HasPort(w))
  {
    ModeMeans(w.pci);
    Infiniband.DetectsExactly(w.ib);
  }

  predicate HasPort(w: World) {
    Infiniband.Detected(w.ib).Ok? && Infiniband.Detected(w.ib).value.Some?
  }

  lemma ParamsPanic(w: World)
    ensures Panic in ParamsPlan(BORN, w).script <==> !ParamsAccepted(w)
  {
    if w.cmdline.Some? {
      FailsExactly(Fresh(NO_SETTINGS), TokensOf(w), w.devkmsg);
    }
  }

  // ---------- Which extensions are planned ----------

  lemma DevicesNamed(w: World, name: string)
    requires Discover(w.blocks).Some?
    ensures name in Names(Discover(w.blocks).value) <==> OnDevice(w, name)
  {
    var devices := Discover(w.blocks).value;
    if w.blocks.Some? {
      DiscoveredExactly(w.blocks.value);
    }
    if name in Names(devices) {
      var d :| d in devices && d.0 == name;
      assert (name, d.1) in devices;
    }
    if OnDevice(w, name) {
      var b :| b in BlocksOf(w) && SerialName(b.1) == Some(name);
      assert (name, b.0) in devices;
    }
  }

  lemma ParamsNamed(w: World, name: string)
    requires w.cmdline.Some? && Extensions.ParseExtensions(w.cmdline.value).Some?
    ensures name in Names(Extensions.ParseExtensions(w.cmdline.value).value) <==> OnCommandLine(w, name)
  {
    Extensions.ParamsAreNamed(TokensOf(w), name);
  }

  /** Mounts are planned exactly when parameters and devices are in order and name the same extensions. */
  lemma PlannedExactly(w: World)
    ensures Planned(w).Some? <==>
              && w.cmdline.Some?
              && (forall t <- TokensOf(w) :: Extensions.PairAccepted(t))
              && (forall b <- BlocksOf(w) :: SerialName(b.1).Some? ==> ValidName(SerialName(b.1).value))
              && (forall name :: OnCommandLine(w, name) <==> OnDevice(w, name))
  {
    if w.cmdline.Some? {
      var params, devices := Extensions.ParseExtensions(w.cmdline.value), Discover(w.blocks);
      Extensions.ParamsExactly(TokensOf(w));
      if w.blocks.Some? {
        DiscoveredExactly(w.blocks.value);
      }
      if params.Some? && devices.Some? {
        FailClosed(params.value, devices.value);
        forall name
          ensures name in Names(params.value) <==> OnCommandLine(w, name)
          ensures name in Names(devices.value) <==> OnDevice(w, name)
        {
          ParamsNamed(w, name);
          DevicesNamed(w, name);
        }
        SameSet(w, Names(params.value), Names(devices.value));
      }
    }
  }

  lemma SameSet(w: World, a: set<string>, b: set<string>)
    requires forall name :: name in a <==> OnCommandLine(w, name)
    requires forall name :: name in b <==> OnDevice(w, name)
    ensures a == b <==> forall name :: OnCommandLine(w, name) <==> OnDevice(w, name)
  {
  }

  lemma PartitionedExactly(dir: Option<seq<Partition>>)
    ensures Partitions(dir).Some? <==> HasPartitions(dir)
  {
    if dir.Some? {
      LastNumberedIs(dir.value, "1");
      LastNumberedIs(dir.value, "2");
    }
  }

  lemma PlanCarries(plan: seq<Mount>, devices: seq<Device>, dev: string)
    requires |plan| == |devices| && forall i :: 0 <= i < |plan| ==> plan[i].dev == devices[i].1
    ensures (exists m <- plan :: m.dev == dev) <==> exists d <- devices :: d.1 == dev
  {
    if m :| m in plan && m.dev == dev {
      var i :| 0 <= i < |plan| && plan[i] == m;
      assert devices[i] in devices;
    }
    if d :| d in devices && d.1 == dev {
      var i :| 0 <= i < |devices| && devices[i] == d;
      assert plan[i] in plan;
    }
  }

  lemma DiscoveredCarries(blocks: seq<Block>, dev: string)
    requires DevicesOf(blocks).Some?
    ensures (exists d <- DevicesOf(blocks).value :: d.1 == dev) <==>
              exists b <- blocks :: b.0 == dev && SerialName(b.1).Some?
  {
    DiscoveredExactly(blocks);
    var devices := DevicesOf(blocks).value;
    if d :| d in devices && d.1 == dev {
      assert (d.0, dev) in devices;
    }
    if b :| b in blocks && b.0 == dev && SerialName(b.1).Some? {
      assert (SerialName(b.1).value, dev) in devices;
    }
  }

  /** The devices in the plan are those with an extension serial. */
  lemma PlannedDevices(w: World, dev: string)
    requires Planned(w).Some?
    ensures (exists m <- Planned(w).value :: m.dev == dev) <==>
              exists b <- BlocksOf(w) :: b.0 == dev && SerialName(b.1).Some?
  {
    FailClosed(Extensions.ParseExtensions(w.cmdline.value).value, Discover(w.blocks).value);
    PlanCarries(Planned(w).value, Discover(w.blocks).value, dev);
    if w.blocks.Some? {
      DiscoveredCarries(w.blocks.value, dev);
    }
  }

  lemma PlanPartitioned(w: World)
    requires Planned(w).Some?
    ensures (forall m <- Planned(w).value :: Partitions(w.partitions(m.dev)).Some?) <==>
            (forall b <- BlocksOf(w) :: SerialName(b.1).Some? ==> HasPartitions(w.partitions(b.0)))
  {
    forall dev
      ensures Partitions(w.partitions(dev)).Some? <==> HasPartitions(w.partitions(dev))
      ensures (exists m <- Planned(w).value :: m.dev == dev) <==>
                exists b <- BlocksOf(w) :: b.0 == dev && SerialName(b.1).Some?
    {
      PartitionedExactly(w.partitions(dev));
      PlannedDevices(w, dev);
    }
  }

  lemma ExtensionsExactly(w: World)
    requires w.cmdline.Some?
    ensures ExtensionsAccepted(w) <==>
              Planned(w).Some? && forall m <- Planned(w).value :: Partitions(w.partitions(m.dev)).Some?
  {
    PlannedExactly(w);
    if Planned(w).Some? {
      PlanPartitioned(w);
    }
  }

  // ---------- Where a boot panics ----------

  lemma {:induction false} MountsPanic(w: World, plan: seq<Mount>)
    ensures Panic in MountEach(w, plan) <==> exists m <- plan :: Partitions(w.partitions(m.dev)) == None
    decreases |plan|
  {
    if plan != [] {
      var n := |plan| - 1;
      MountsPanic(w, plan[..n]);
      OnePanics(w, plan[n]);
      PanicInEither(MountEach(w, plan[..n]), MountOne(w, plan[n]));
      assert forall m :: m in plan <==> m == plan[n] || m in plan[..n];
    }
  }

  lemma PanicInEither(a: seq<Action>, b: seq<Action>)
    ensures Panic in a + b <==> Panic in a || Panic in b
  {
  }

  lemma OnePanics(w: World, m: Mount)
    ensures Panic in MountOne(w, m) <==> Partitions(w.partitions(m.dev)) == None
  {
  }

  lemma MountScriptPanics(w: World)
    requires w.cmdline.Some?
    ensures Panic in MountScript(w) <==> !ExtensionsAccepted(w)
  {
    ExtensionsExactly(w);
    if Planned(w).Some? {
      MountsPanic(w, Planned(w).value);
    } else {
      assert Panic in MountsOf(w, Planned(w));
    }
  }

  predicate Calm(script: seq<Action>) {
    Panic !in script
  }

  lemma ProbesCalm(n: nat)
    ensures Calm(Probes(n))
  {
    ProbesAre(n);
  }

  lemma Nvl4Calm(s: State, w: World, mode: FabricMode)
    ensures Calm(Nvl4Plan(s, w, mode).script)
  {
    ProbesCalm(|Nvl4Plan(s, w, mode).state.children|);
  }

  lemma BridgeCalm(s: State, w: World, mode: FabricMode)
    ensures Calm(BridgePlan(s, w, mode).script)
  {
    ProbesCalm(|NvlsmPlan(s, Present(w)).state.children|);
    ProbesCalm(|BridgePlan(s, w, mode).state.children|);
  }

  lemma Nvl5Panics(s: State, w: World, mode: FabricMode)
    ensures Panic in Nvl5Plan(s, w, mode).script <==> !HasPort(w)
  {
    var loads := [LoadModule(w, "ib_umad"), LoadModule(w, "mlx5_ib")];
    assert Calm(loads);
    match Infiniband.Detected(w.ib)
    case Ok(Some(guid)) => BridgeCalm(s.(portGuid := Some(guid)), w, mode);
    case _ => assert Panic in loads + [Panic];
  }

  lemma ServicesCalm(s: State, w: World)
    ensures Calm(GpuServicesPlan(s, w).script)
  {
    var p := PersistencedPlan(s);
    var q := HostenginePlan(p.state);
    var r := ExporterPlan(q.state);
    ProbesCalm(|r.state.children|);
    assert Calm(SmiClocks(s.settings)) && Calm(p.script) && Calm(q.script) && Calm(r.script)
        && Calm(SmiReady(s.settings));
  }

  lemma GpuPanics(s: State, w: World, nvswitch: Option<NvSwitch>)
    ensures Panic in GpuPlan(s, w, nvswitch).script <==> Panic in NvSwitchPlan(s, w, nvswitch).script
  {
    ServicesCalm(NvSwitchPlan(s, w, nvswitch).state, w);
    assert Calm([LoadModule(w, "nvidia"), LoadModule(w, "nvidia-uvm")]);
  }

  lemma NvSwitchPanics(s: State, w: World, nvswitch: Option<NvSwitch>)
    ensures Panic in NvSwitchPlan(s, w, nvswitch).script <==>
              nvswitch == Some(Nvl5) && !HasPort(w)
  {
    match nvswitch
    case Some(Nvl4) => Nvl4Calm(s, w, FABRIC_MODE_FULL);
    case Some(Nvl5) => Nvl5Panics(s, w, FABRIC_MODE_FULL);
    case None =>
  }

  lemma ModePanics(w: World)
    ensures Panic in ModeScript(w) <==> !TopologyAccepted(w)
  {
    var s := InitialState(w);
    TopologyExactly(w);
    match Detect(w.pci)
    case Err(_) => assert Panic in [Panic];
    case Ok(d) =>
      ModeMeans(w.pci);
      match d.mode
      case Cpu =>
      case Gpu =>
        GpuPanics(s, w, d.nvswitch);
        NvSwitchPanics(s, w, d.nvswitch);
      case ServiceVmNvl4 => Nvl4Calm(s, w, FABRIC_MODE_SHARED);
      case ServiceVmNvl5 => Nvl5Panics(s, w, FABRIC_MODE_SHARED);
  }

  lemma EarlyPanics(w: World)
    ensures Panic in Early(w) <==> !ParamsAccepted(w) || !ExtensionsAccepted(w)
  {
    ParamsPanic(w);
    if w.cmdline.Some? {
      MountScriptPanics(w);
    }
    assert Calm(EARLY_SETUP) && Calm([Effect("hash /proc/self/exe")]) && Calm(ExtensionScript(w));
    InParts(EARLY_SETUP, ParamsPlan(BORN, w).script, [Effect("hash /proc/self/exe")], MountScript(w),
            ExtensionScript(w));
  }

  lemma InParts(a: seq<Action>, b: seq<Action>, c: seq<Action>, d: seq<Action>, e: seq<Action>)
    ensures Panic in a + b + c + d + e <==> Panic in a || Panic in b || Panic in c || Panic in d || Panic in e
  {
  }

  /** The boot plan has a panic exactly when some input is not accepted. */
  lemma PanicsExactly(w: World)
    ensures Panic in BootPlan(w).script <==> !(ParamsAccepted(w) && ExtensionsAccepted(w) && TopologyAccepted(w))
  {
    BootParts(w);
    EarlyPanics(w);
    ModePanics(w);
    EndCalm(w);
    BeforeCalmEnd(BootPlan(w).script, Early(w), ModeScript(w), [DisableModules], HandOff(w));
  }

  lemma EndCalm(w: World)
    ensures Calm([DisableModules]) && Calm(HandOff(w))
  {
  }

  lemma BeforeCalmEnd(script: seq<Action>, early: seq<Action>, mode: seq<Action>, lock: seq<Action>, end: seq<Action>)
    requires script == early + mode + lock + end && Calm(lock) && Calm(end)
    ensures Panic in script <==> Panic in early || Panic in mode
  {
  }

  /** Every command, system call and daemon does its part. */
  ghost predicate WellBehaved(replies: Replies) {
    forall n: nat :: replies(n).done && LooksHealthy(replies(n).status)
  }

  lemma WellBehavedSucceeds(script: seq<Action>, replies: Replies)
    requires WellBehaved(replies)
    ensures (forall i :: 0 <= i < |script| ==> Succeeds(script[i], replies(i))) <==> Panic !in script
  {
    forall i | 0 <= i < |script| && script[i] != Panic ensures Succeeds(script[i], replies(i)) {
      SucceedsExactly(script[i], replies(i));
    }
    if Panic in script {
      var i :| 0 <= i < |script| && script[i] == Panic;
      assert !Succeeds(script[i], replies(i));
    }
  }

  /** When the rest of the system behaves, NVRC reaches the kata-agent exactly for the inputs it accepts. When it
      does not, it still never does so for any other input. */
  lemma BootsExactly(w: World, replies: Replies)
    ensures var accepted := ParamsAccepted(w) && ExtensionsAccepted(w) && TopologyAccepted(w);
            && (BootRun(w, replies).power == HandedOver ==> accepted)
            && (WellBehaved(replies) ==> (BootRun(w, replies).power == HandedOver <==> accepted))
  {
    HandsOverExactly(w, replies);
    PanicsExactly(w);
    EveryBootEnds(w, replies);
    if BootRun(w, replies).power == HandedOver {
      NoPanicAtHandOver(BootRun(w, replies), BootPlan(w).script, replies);
    }
    if WellBehaved(replies) {
      WellBehavedSucceeds(BootPlan(w).script, replies);
    }
  }
}
