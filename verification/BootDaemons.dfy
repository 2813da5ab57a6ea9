/** Which daemons and modules a boot starts and loads, in which order, and how it ends. */
module BootDaemons {
  import opened Text
  import opened System
  import opened Nvrc
  import opened Daemon
  import opened Topology
  import opened KernelParams
  import Infiniband
  import opened ExtensionMounts
  import opened Boot
  import opened BootSafety
  import opened BootFabric
  import opened BootMounts
  import opened BootSettings

  // ---------- What is run and started, in order ----------

  /** A program run to its end, or started as a daemon. */
  datatype Launch = Ran(program: Program) | Spawned(program: Program)

  function Launches(script: seq<Action>): seq<Launch> {
    if script == [] then []
    else
      (match script[0]
       case Run(program, _) => [Ran(program)]
       case Spawn(_, program, _) => [Spawned(program)]
       case _ => []) + Launches(script[1..])
  }

  lemma {:induction false} LaunchesAppend(a: seq<Action>, b: seq<Action>)
    ensures Launches(a + b) == Launches(a) + Launches(b)
  {
    if a == [] {
      assert a + b == b;
    } else {
      assert (a + b)[1..] == a[1..] + b;
      LaunchesAppend(a[1..], b);
      Associative(Launches([a[0]]), Launches(a[1..]), Launches(b));
      OneLaunch(a[0]);
    }
  }

  lemma OneLaunch(a: Action)
    ensures a.Run? ==> Launches([a]) == [Ran(a.program)]
    ensures a.Spawn? ==> Launches([a]) == [Spawned(a.program)]
    ensures !a.Run? && !a.Spawn? ==> Launches([a]) == []
  {
    assert [a][1..] == [];
  }

  predicate NoLaunch(script: seq<Action>) {
    forall a <- script :: !a.Run? && !a.Spawn?
  }

  lemma {:induction false} NoLaunches(script: seq<Action>)
    requires NoLaunch(script)
    ensures Launches(script) == []
  {
    if script != [] {
      assert script[0] in script && forall a <- script[1..] :: a in script;
      NoLaunches(script[1..]);
    }
  }

  predicate NoStart(script: seq<Action>) {
    forall a <- script :: !a.Spawn?
  }

  lemma AroundStart(pre: seq<Action>, s: State, name: string, program: Program, args: seq<string>, post: seq<Action>)
    requires NoLaunch(pre) && NoLaunch(post)
    ensures Launches(pre + Started(s, name, program, args).script + post) == [Spawned(program)]
  {
    var start := Started(s, name, program, args).script;
    LaunchesAppend(pre + start, post);
    LaunchesAppend(pre, start);
    NoLaunches(pre);
    NoLaunches(post);
    OneLaunch(start[0]);
  }

  lemma ProbesLaunchNothing(n: nat)
    ensures Launches(Probes(n)) == []
  {
    ProbesAre(n);
    NoLaunches(Probes(n));
  }

  lemma FabricLaunches(s: State, stock: string, mode: FabricMode, railPolicy: string)
    ensures Launches(FabricPlan(s, stock, mode, railPolicy).script) == [Spawned(FabricManager)]
  {
    AroundStart(FabricSetup(stock, mode, railPolicy), s, "nv-fabricmanager", FabricManager, FabricArgs(s.portGuid),
                [AwaitMarker(FABRIC_READY, 120)]);
  }

  lemma LoadsLaunch(w: World, first: string, second: string)
    ensures Launches([LoadModule(w, first)]) == [Ran(Modprobe)]
    ensures Launches([LoadModule(w, first), LoadModule(w, second)]) == [Ran(Modprobe), Ran(Modprobe)]
  {
    OneLaunch(LoadModule(w, first));
    OneLaunch(LoadModule(w, second));
    LaunchesAppend([LoadModule(w, first)], [LoadModule(w, second)]);
    assert [LoadModule(w, first)] + [LoadModule(w, second)] == [LoadModule(w, first), LoadModule(w, second)];
  }

  lemma Nvl4Launches(s: State, w: World, mode: FabricMode)
    ensures Launches(Nvl4Plan(s, w, mode).script) == [Ran(Modprobe), Spawned(FabricManager)]
  {
    var p := FabricPlan(s, w.stock, mode, "greedy");
    LaunchesAppend([LoadModule(w, "nvidia")] + p.script, Probes(|p.state.children|));
    LaunchesAppend([LoadModule(w, "nvidia")], p.script);
    LoadsLaunch(w, "nvidia", "nvidia");
    FabricLaunches(s, w.stock, mode, "greedy");
    ProbesLaunchNothing(|p.state.children|);
  }

  lemma BridgeLaunches(s: State, w: World, mode: FabricMode)
    requires s.portGuid.Some?
    ensures Launches(BridgePlan(s, w, mode).script) == [Spawned(Nvlsm), Spawned(FabricManager)]
  {
    var p := NvlsmPlan(s, Present(w));
    var q := FabricPlan(p.state, w.stock, mode, "symmetric");
    LaunchesAppend(p.script + Probes(|p.state.children|) + q.script, Probes(|q.state.children|));
    LaunchesAppend(p.script + Probes(|p.state.children|), q.script);
    LaunchesAppend(p.script, Probes(|p.state.children|));
    ProbesLaunchNothing(|p.state.children|);
    ProbesLaunchNothing(|q.state.children|);
    FabricLaunches(p.state, w.stock, mode, "symmetric");
    OneLaunch(p.script[0]);
  }

  lemma Nvl5Launches(s: State, w: World, mode: FabricMode)
    requires Infiniband.Detected(w.ib).Ok? && Infiniband.Detected(w.ib).value.Some?
    ensures Launches(Nvl5Plan(s, w, mode).script)
            == [Ran(Modprobe), Ran(Modprobe), Spawned(Nvlsm), Spawned(FabricManager)]
  {
    var s' := s.(portGuid := Infiniband.Detected(w.ib).value);
    LaunchesAppend([LoadModule(w, "ib_umad"), LoadModule(w, "mlx5_ib")], BridgePlan(s', w, mode).script);
    LoadsLaunch(w, "ib_umad", "mlx5_ib");
    BridgeLaunches(s', w, mode);
  }

  function SwitchOrder(nvswitch: Option<NvSwitch>): seq<Launch> {
    match nvswitch
    case None => []
    case Some(Nvl4) => [Ran(Modprobe), Spawned(FabricManager)]
    case Some(Nvl5) => [Ran(Modprobe), Ran(Modprobe), Spawned(Nvlsm), Spawned(FabricManager)]
  }

  function If(condition: bool, launches: seq<Launch>): seq<Launch> {
    if condition then launches else []
  }

  function SmiOrder(s: Settings): seq<Launch> {
    If(s.lmc.Some?, [Ran(NvidiaSmi)]) + If(s.lgc.Some?, [Ran(NvidiaSmi)]) + If(s.pl.Some?, [Ran(NvidiaSmi)])
  }

  /** The persistence daemon, the clocks, DCGM on demand, the CDI specification, and last the ready state. */
  function ServicesOrder(s: Settings): seq<Launch> {
    [Spawned(Persistenced)] + SmiOrder(s)
    + If(s.dcgm == Some(true), [Spawned(Hostengine)]) + If(s.dcgm == Some(true), [Spawned(DcgmExporter)])
    + [Ran(NvidiaCtk)] + If(s.srs.Some?, [Ran(NvidiaSmi)])
  }

  lemma SmiLaunches(s: Settings)
    ensures Launches(SmiClocks(s)) == SmiOrder(s)
    ensures Launches(SmiReady(s)) == If(s.srs.Some?, [Ran(NvidiaSmi)])
  {
    SmiLaunch("-lmc", s.lmc);
    SmiLaunch("-lgc", s.lgc);
    SmiLaunch("-pl", s.pl);
    LaunchesAppend(Smi("-lmc", s.lmc) + Smi("-lgc", s.lgc), Smi("-pl", s.pl));
    LaunchesAppend(Smi("-lmc", s.lmc), Smi("-lgc", s.lgc));
    if s.srs.Some? {
      OneLaunch(SmiReady(s)[0]);
    }
  }

  lemma SmiLaunch(option: string, setting: Option<u32>)
    ensures Launches(Smi(option, setting)) == If(setting.Some?, [Ran(NvidiaSmi)])
  {
    if setting.Some? {
      OneLaunch(Smi(option, setting)[0]);
    }
  }

  lemma PersistencedLaunches(s: State)
    ensures Launches(PersistencedPlan(s).script) == [Spawned(Persistenced)]
  {
    var uvm := if s.settings.uvm.Some? then s.settings.uvm.value else true;
    AroundStart([OpenLog, Effect("create /var/run/nvidia-persistenced")], s, "nvidia-persistenced", Persistenced,
                PersistencedArgs(uvm), [AwaitMarker(PERSISTENCED_READY, 120)]);
  }

  lemma DcgmLaunches(s: State)
    ensures Launches(HostenginePlan(s).script) == If(s.settings.dcgm == Some(true), [Spawned(Hostengine)])
    ensures Launches(ExporterPlan(s).script) == If(s.settings.dcgm == Some(true), [Spawned(DcgmExporter)])
  {
    if s.settings.dcgm == Some(true) {
      OneLaunch(HostenginePlan(s).script[0]);
      OneLaunch(ExporterPlan(s).script[0]);
    }
  }

  lemma SevenLaunches(a: seq<Action>, b: seq<Action>, c: seq<Action>, d: seq<Action>, e: seq<Action>, f: seq<Action>,
                      g: seq<Action>)
    ensures Launches(a + b + c + d + e + f + g)
            == Launches(a) + Launches(b) + Launches(c) + Launches(d) + Launches(e) + Launches(f) + Launches(g)
  {
    LaunchesAppend(a + b + c + d + e + f, g);
    LaunchesAppend(a + b + c + d + e, f);
    LaunchesAppend(a + b + c + d, e);
    LaunchesAppend(a + b + c, d);
    LaunchesAppend(a + b, c);
    LaunchesAppend(a, b);
  }

  lemma ServicesLaunch(s: State, w: World)
    ensures Launches(GpuServicesPlan(s, w).script) == ServicesOrder(s.settings)
  {
    var p := PersistencedPlan(s);
    var q := HostenginePlan(p.state);
    var r := ExporterPlan(q.state);
    var ctk := [Run(NvidiaCtk, CdiArgs(Present(w)))];
    SevenLaunches(p.script, SmiClocks(s.settings), q.script, r.script, ctk, SmiReady(s.settings),
                  Probes(|r.state.children|));
    PersistencedLaunches(s);
    SmiLaunches(s.settings);
    DcgmLaunches(p.state);
    DcgmLaunches(q.state);
    OneLaunch(ctk[0]);
    ProbesLaunchNothing(|r.state.children|);
  }

  /** What the modes run and start. */
  function ModeOrder(d: Detection, s: Settings): seq<Launch> {
    if d.mode == Gpu then [Ran(Modprobe), Ran(Modprobe)] + SwitchOrder(d.nvswitch) + ServicesOrder(s)
    else SwitchOrder(d.nvswitch)
  }

  lemma SwitchLaunches(s: State, w: World, nvswitch: Option<NvSwitch>)
    requires nvswitch == Some(Nvl5) ==> Infiniband.Detected(w.ib).Ok? && Infiniband.Detected(w.ib).value.Some?
    ensures Launches(NvSwitchPlan(s, w, nvswitch).script) == SwitchOrder(nvswitch)
  {
    match nvswitch
    case Some(Nvl4) => Nvl4Launches(s, w, FABRIC_MODE_FULL);
    case Some(Nvl5) => Nvl5Launches(s, w, FABRIC_MODE_FULL);
    case None =>
  }

  lemma GpuLaunches(s: State, w: World, nvswitch: Option<NvSwitch>)
    requires nvswitch == Some(Nvl5) ==> Infiniband.Detected(w.ib).Ok? && Infiniband.Detected(w.ib).value.Some?
    ensures Launches(GpuPlan(s, w, nvswitch).script) == ModeOrder(Detection(Gpu, nvswitch), s.settings)
  {
    var loads := [LoadModule(w, "nvidia"), LoadModule(w, "nvidia-uvm")];
    var p := NvSwitchPlan(s, w, nvswitch);
    LaunchesAppend(loads + p.script, GpuServicesPlan(p.state, w).script);
    LaunchesAppend(loads, p.script);
    LoadsLaunch(w, "nvidia", "nvidia-uvm");
    SwitchLaunches(s, w, nvswitch);
    SwitchKeepsSettings(s, w, nvswitch);
    ServicesLaunch(p.state, w);
  }

  lemma ModeLaunches(w: World)
    requires Detect(w.pci).Ok?
    requires Detect(w.pci).value.nvswitch == Some(Nvl5) ==>
               Infiniband.Detected(w.ib).Ok? && Infiniband.Detected(w.ib).value.Some?
    ensures Launches(ModeScript(w)) == ModeOrder(Detect(w.pci).value, InitialState(w).settings)
  {
    var s, d := InitialState(w), Detect(w.pci).value;
    ModeMeans(w.pci);
    match d.mode
    case Cpu =>
    case Gpu => GpuLaunches(s, w, d.nvswitch);
    case ServiceVmNvl4 => Nvl4Launches(s, w, FABRIC_MODE_SHARED);
    case ServiceVmNvl5 => Nvl5Launches(s, w, FABRIC_MODE_SHARED);
  }

  lemma BootLaunches(w: World)
    ensures Launches(BootPlan(w).script) == Launches(Early(w)) + Launches(ModeScript(w))
  {
    BootParts(w);
    NoLaunches([DisableModules]);
    NoLaunches(HandOff(w));
    LaunchesAppend(Early(w) + ModeScript(w) + [DisableModules], HandOff(w));
    LaunchesAppend(Early(w) + ModeScript(w), [DisableModules]);
    LaunchesAppend(Early(w), ModeScript(w));
  }

  /** A boot that reaches the kata-agent has, after mounting and setting up the extensions, run and started exactly
      what topology and command line call for, in this order and nothing else: so each daemon once, all module loads
      before the first daemon, and the ready state last. */
  lemma LaunchedInOrder(w: World, replies: Replies)
    requires BootRun(w, replies).power == HandedOver
    ensures Detect(w.pci).Ok?
    ensures Launches(BootRun(w, replies).trace)
            == Launches(Early(w)) + ModeOrder(Detect(w.pci).value, Latest(NO_SETTINGS, TokensOf(w)))
  {
    EveryBootEnds(w, replies);
    SettingsAreLatest(w, replies);
    TopologyWasAccepted(w, replies);
    ModeLaunches(w);
    BootLaunches(w);
  }

  // ---------- The early launches ----------

  function Times(n: nat, launch: Launch): seq<Launch> {
    if n == 0 then [] else Times(n - 1, launch) + [launch]
  }

  lemma {:induction false} MountsLaunch(w: World, plan: seq<Mount>)
    requires Panic !in MountEach(w, plan)
    ensures Launches(MountEach(w, plan)) == Times(|plan|, Ran(Veritysetup))
    decreases |plan|
  {
    if plan != [] {
      var n := |plan| - 1;
      assert MountEach(w, plan) == MountEach(w, plan[..n]) + MountOne(w, plan[n]);
      MountsLaunch(w, plan[..n]);
      MountLaunches(w, plan[n]);
      LaunchesAppend(MountEach(w, plan[..n]), MountOne(w, plan[n]));
    }
  }

  lemma MountLaunches(w: World, m: Mount)
    requires Panic !in MountOne(w, m)
    ensures Launches(MountOne(w, m)) == [Ran(Veritysetup)]
  {
    var script := MountOne(w, m);
    assert Partitions(w.partitions(m.dev)).Some?;
    OneLaunch(script[0]);
    NoLaunches(script[1..]);
  }

  lemma LdcacheLaunches(w: World)
    ensures Launches(ExtensionScript(w)) == If(Present(w), [Ran(Ldconfig)])
  {
    LaunchesAppend(FirmwareScript(w), LdcacheScript(w));
    NoLaunches(FirmwareScript(w));
    if Present(w) {
      var script := LdcacheScript(w);
      assert script == script[..1] + [script[1]] + script[2..];
      LaunchesAppend(script[..1] + [script[1]], script[2..]);
      LaunchesAppend(script[..1], [script[1]]);
      NoLaunches(script[..1]);
      NoLaunches(script[2..]);
      OneLaunch(script[1]);
    }
  }

  lemma SetupLaunchesNothing(w: World)
    ensures Launches(EARLY_SETUP + ParamsPlan(BORN, w).script + [Effect("hash /proc/self/exe")]) == []
  {
    NoLaunches(EARLY_SETUP + ParamsPlan(BORN, w).script + [Effect("hash /proc/self/exe")]);
  }

  /** Before the modes, a boot that reaches the kata-agent has run veritysetup once for each planned extension, and then
      ldconfig if one of them is the gpu extension. */
  lemma EarlyLaunches(w: World, replies: Replies)
    requires BootRun(w, replies).power == HandedOver
    ensures Planned(w).Some?
    ensures Launches(Early(w)) == Times(|Planned(w).value|, Ran(Veritysetup)) + If(Present(w), [Ran(Ldconfig)])
  {
    EveryBootEnds(w, replies);
    EverythingIsMounted(w, replies);
    NoPanicAtHandOver(BootRun(w, replies), BootPlan(w).script, replies);
    CalmEarly(w);
    MountScriptLaunches(w);
    EarlyPartsLaunch(w);
  }

  lemma MountScriptLaunches(w: World)
    requires Planned(w).Some? && Panic !in MountEach(w, Planned(w).value)
    ensures Launches(MountScript(w)) == Times(|Planned(w).value|, Ran(Veritysetup))
  {
    MountsLaunch(w, Planned(w).value);
    OneLaunch(ReadFile("/proc/cmdline"));
    LaunchesAppend([ReadFile("/proc/cmdline")], MountEach(w, Planned(w).value));
  }

  lemma EarlyPartsLaunch(w: World)
    ensures Launches(Early(w)) == Launches(MountScript(w)) + If(Present(w), [Ran(Ldconfig)])
  {
    SetupLaunchesNothing(w);
    LdcacheLaunches(w);
    ThreeLaunches(EARLY_SETUP + ParamsPlan(BORN, w).script + [Effect("hash /proc/self/exe")], MountScript(w),
                  ExtensionScript(w));
  }

  lemma ThreeLaunches(a: seq<Action>, b: seq<Action>, c: seq<Action>)
    requires Launches(a) == []
    ensures Launches(a + b + c) == Launches(b) + Launches(c)
  {
    LaunchesAppend(a + b, c);
    LaunchesAppend(a, b);
  }

  lemma CalmEarly(w: World)
    requires Planned(w).Some? && Panic !in BootPlan(w).script
    ensures Panic !in MountEach(w, Planned(w).value)
  {
    BootParts(w);
    assert forall a <- MountEach(w, Planned(w).value) :: a in MountScript(w);
    assert forall a <- MountScript(w) :: a in Early(w);
    assert forall a <- Early(w) :: a in BootPlan(w).script;
  }

  lemma TopologyWasAccepted(w: World, replies: Replies)
    requires BootRun(w, replies).power == HandedOver
    ensures Detect(w.pci).Ok?
    ensures Detect(w.pci).value.nvswitch == Some(Nvl5) ==>
              Infiniband.Detected(w.ib).Ok? && Infiniband.Detected(w.ib).value.Some?
  {
    EveryBootEnds(w, replies);
    NoPanicAtHandOver(BootRun(w, replies), BootPlan(w).script, replies);
    if Detect(w.pci).Err? {
      UnknownPanics(w);
    } else if Detect(w.pci).value.nvswitch == Some(Nvl5) && !StartsFabric(w) {
      NoPortNoBoot(w, replies);
    }
  }

  lemma UnknownPanics(w: World)
    requires Detect(w.pci).Err?
    ensures Panic in BootPlan(w).script
  {
    BootParts(w);
    assert Panic in ModeScript(w);
  }

  // ---------- Each start is awaited ----------

  /** The persistence daemon and the fabric manager are waited for right after their start, two minutes at most. */
  predicate FollowsStart(a: Action, next: Option<Action>) {
    && (a.Spawn? && a.program.Persistenced? ==> next == Some(AwaitMarker("Local RPC services initialized", 120)))
    && (a.Spawn? && a.program.FabricManager? ==> next == Some(AwaitMarker("FM starting NvLink Inband", 120)))
  }

  function Next(script: seq<Action>, i: nat): Option<Action> {
    if i + 1 < |script| then Some(script[i + 1]) else None
  }

  predicate Awaited(script: seq<Action>) {
    forall i :: 0 <= i < |script| ==> FollowsStart(script[i], Next(script, i))
  }

  lemma NoStartAwaited(script: seq<Action>)
    requires NoStart(script)
    ensures Awaited(script)
  {
  }

  lemma AwaitedTogether(a: seq<Action>, b: seq<Action>)
    requires Awaited(a) && Awaited(b)
    ensures Awaited(a + b)
  {
    var ab := a + b;
    forall i | 0 <= i < |ab| ensures FollowsStart(ab[i], Next(ab, i)) {
      if i < |a| {
        assert ab[i] == a[i] && FollowsStart(a[i], Next(a, i));
        assert i + 1 < |a| ==> ab[i + 1] == a[i + 1];
      } else {
        assert ab[i] == b[i - |a|] && FollowsStart(b[i - |a|], Next(b, i - |a|));
        assert i + 1 < |ab| ==> ab[i + 1] == b[i + 1 - |a|];
      }
    }
  }

  lemma ProbesAwaited(n: nat)
    ensures Awaited(Probes(n))
  {
    ProbesAre(n);
  }

  lemma FabricAwaited(s: State, stock: string, mode: FabricMode, railPolicy: string)
    ensures Awaited(FabricPlan(s, stock, mode, railPolicy).script)
  {
    var script := FabricPlan(s, stock, mode, railPolicy).script;
    assert |script| == 7 && script[5].Spawn? && script[6] == AwaitMarker(FABRIC_READY, 120);
  }

  lemma PersistencedIsAwaited(s: State)
    ensures Awaited(PersistencedPlan(s).script)
  {
    var script := PersistencedPlan(s).script;
    assert |script| == 4 && script[2].Spawn? && script[3] == AwaitMarker(PERSISTENCED_READY, 120);
  }

  lemma Nvl4Awaited(s: State, w: World, mode: FabricMode)
    ensures Awaited(Nvl4Plan(s, w, mode).script)
  {
    var p := FabricPlan(s, w.stock, mode, "greedy");
    FabricAwaited(s, w.stock, mode, "greedy");
    ProbesAwaited(|p.state.children|);
    AwaitedTogether([LoadModule(w, "nvidia")], p.script);
    AwaitedTogether([LoadModule(w, "nvidia")] + p.script, Probes(|p.state.children|));
  }

  lemma BridgeAwaited(s: State, w: World, mode: FabricMode)
    ensures Awaited(BridgePlan(s, w, mode).script)
  {
    var p := NvlsmPlan(s, Present(w));
    var q := FabricPlan(p.state, w.stock, mode, "symmetric");
    FabricAwaited(p.state, w.stock, mode, "symmetric");
    ProbesAwaited(|p.state.children|);
    ProbesAwaited(|q.state.children|);
    AwaitedTogether(p.script, Probes(|p.state.children|));
    AwaitedTogether(p.script + Probes(|p.state.children|), q.script);
    AwaitedTogether(p.script + Probes(|p.state.children|) + q.script, Probes(|q.state.children|));
  }

  lemma Nvl5Awaited(s: State, w: World, mode: FabricMode)
    ensures Awaited(Nvl5Plan(s, w, mode).script)
  {
    var loads := [LoadModule(w, "ib_umad"), LoadModule(w, "mlx5_ib")];
    match Infiniband.Detected(w.ib)
    case Ok(Some(guid)) =>
      BridgeAwaited(s.(portGuid := Some(guid)), w, mode);
      AwaitedTogether(loads, BridgePlan(s.(portGuid := Some(guid)), w, mode).script);
    case _ =>
      NoStartAwaited(loads + [Panic]);
  }

  lemma ServicesAwaited(s: State, w: World)
    ensures Awaited(GpuServicesPlan(s, w).script)
  {
    var p := PersistencedPlan(s);
    var q := HostenginePlan(p.state);
    var r := ExporterPlan(q.state);
    var ctk := [Run(NvidiaCtk, CdiArgs(Present(w)))];
    var done := p.script;
    PersistencedIsAwaited(s);
    AwaitedTogether(done, SmiClocks(s.settings));
    done := done + SmiClocks(s.settings);
    AwaitedTogether(done, q.script);
    done := done + q.script;
    AwaitedTogether(done, r.script);
    done := done + r.script;
    AwaitedTogether(done, ctk);
    done := done + ctk;
    AwaitedTogether(done, SmiReady(s.settings));
    done := done + SmiReady(s.settings);
    ProbesAwaited(|r.state.children|);
    AwaitedTogether(done, Probes(|r.state.children|));
  }

  lemma GpuAwaited(s: State, w: World, nvswitch: Option<NvSwitch>)
    ensures Awaited(GpuPlan(s, w, nvswitch).script)
  {
    var loads := [LoadModule(w, "nvidia"), LoadModule(w, "nvidia-uvm")];
    var p := NvSwitchPlan(s, w, nvswitch);
    match nvswitch {
      case Some(Nvl4) => Nvl4Awaited(s, w, FABRIC_MODE_FULL);
      case Some(Nvl5) => Nvl5Awaited(s, w, FABRIC_MODE_FULL);
      case None =>
    }
    ServicesAwaited(p.state, w);
    AwaitedTogether(loads, p.script);
    AwaitedTogether(loads + p.script, GpuServicesPlan(p.state, w).script);
  }

  lemma ModeAwaited(w: World)
    ensures Awaited(ModeScript(w))
  {
    var s := InitialState(w);
    match Detect(w.pci)
    case Err(_) =>
    case Ok(d) =>
      match d.mode
      case Cpu =>
      case Gpu => GpuAwaited(s, w, d.nvswitch);
      case ServiceVmNvl4 => Nvl4Awaited(s, w, FABRIC_MODE_SHARED);
      case ServiceVmNvl5 => Nvl5Awaited(s, w, FABRIC_MODE_SHARED);
  }

  lemma QuietEndsAwaited(w: World)
    ensures Awaited(Early(w)) && Awaited([DisableModules]) && Awaited(HandOff(w))
  {
    EarlyIsEarly(w);
    NoStartAwaited(Early(w));
  }

  lemma FourAwaited(a: seq<Action>, b: seq<Action>, c: seq<Action>, d: seq<Action>)
    requires Awaited(a) && Awaited(b) && Awaited(c) && Awaited(d)
    ensures Awaited(a + b + c + d)
  {
    AwaitedTogether(a, b);
    AwaitedTogether(a + b, c);
    AwaitedTogether(a + b + c, d);
  }

  lemma BootAwaited(w: World)
    ensures Awaited(BootPlan(w).script)
  {
    BootParts(w);
    QuietEndsAwaited(w);
    ModeAwaited(w);
    FourAwaited(Early(w), ModeScript(w), [DisableModules], HandOff(w));
  }

  /** In any run, what follows a start of the persistence daemon or of the fabric manager is the wait for its marker. */
  lemma StartsAreAwaited(w: World, replies: Replies, i: nat)
    requires i < |BootRun(w, replies).trace| - 1 && BootRun(w, replies).trace[i].Spawn?
    ensures BootRun(w, replies).trace[i].program.Persistenced? ==>
              BootRun(w, replies).trace[i + 1] == AwaitMarker("Local RPC services initialized", 120)
    ensures BootRun(w, replies).trace[i].program.FabricManager? ==>
              BootRun(w, replies).trace[i + 1] == AwaitMarker("FM starting NvLink Inband", 120)
  {
    EveryBootEnds(w, replies);
    BootAwaited(w);
    NextInRun(BootRun(w, replies).trace, BootPlan(w).script, i);
  }

  lemma NextInRun(trace: seq<Action>, script: seq<Action>, i: nat)
    requires trace <= script && i < |trace| - 1 && Awaited(script)
    ensures FollowsStart(trace[i], Some(trace[i + 1]))
  {
    assert FollowsStart(script[i], Next(script, i));
  }

  // ---------- Which modules are loaded ----------

  /** The loads of a script. */
  function Loads(script: seq<Action>): seq<Action> {
    if script == [] then []
    else (if script[0].Run? && script[0].program.Modprobe? then [script[0]] else []) + Loads(script[1..])
  }

  lemma {:induction false} LoadsAppend(a: seq<Action>, b: seq<Action>)
    ensures Loads(a + b) == Loads(a) + Loads(b)
  {
    if a == [] {
      assert a + b == b;
    } else {
      assert (a + b)[1..] == a[1..] + b;
      LoadsAppend(a[1..], b);
    }
  }

  lemma {:induction false} NoLoads(script: seq<Action>)
    requires forall a <- script :: !(a.Run? && a.program.Modprobe?)
    ensures Loads(script) == []
  {
    if script != [] {
      assert script[0] in script && forall a <- script[1..] :: a in script;
      NoLoads(script[1..]);
    }
  }

  lemma {:induction false} OnlyLoads(script: seq<Action>)
    requires forall a <- script :: a.Run? && a.program.Modprobe?
    ensures Loads(script) == script
  {
    if script != [] {
      assert script[0] in script && forall a <- script[1..] :: a in script;
      OnlyLoads(script[1..]);
    }
  }

  lemma FabricLoadsNothing(s: State, stock: string, mode: FabricMode, railPolicy: string)
    ensures Loads(FabricPlan(s, stock, mode, railPolicy).script) == []
  {
    NoLoads(FabricPlan(s, stock, mode, railPolicy).script);
  }

  lemma ProbesLoadNothing(n: nat)
    ensures Loads(Probes(n)) == []
  {
    ProbesAre(n);
    NoLoads(Probes(n));
  }

  lemma Nvl4Loads(s: State, w: World, mode: FabricMode)
    ensures Loads(Nvl4Plan(s, w, mode).script) == [LoadModule(w, "nvidia")]
  {
    var p := FabricPlan(s, w.stock, mode, "greedy");
    LoadsAppend([LoadModule(w, "nvidia")] + p.script, Probes(|p.state.children|));
    LoadsAppend([LoadModule(w, "nvidia")], p.script);
    OnlyLoads([LoadModule(w, "nvidia")]);
    FabricLoadsNothing(s, w.stock, mode, "greedy");
    ProbesLoadNothing(|p.state.children|);
  }

  lemma BridgeLoadsNothing(s: State, w: World, mode: FabricMode)
    ensures Loads(BridgePlan(s, w, mode).script) == []
  {
    var p := NvlsmPlan(s, Present(w));
    var q := FabricPlan(p.state, w.stock, mode, "symmetric");
    LoadsAppend(p.script + Probes(|p.state.children|) + q.script, Probes(|q.state.children|));
    LoadsAppend(p.script + Probes(|p.state.children|), q.script);
    LoadsAppend(p.script, Probes(|p.state.children|));
    NoLoads(p.script);
    FabricLoadsNothing(p.state, w.stock, mode, "symmetric");
    ProbesLoadNothing(|p.state.children|);
    ProbesLoadNothing(|q.state.children|);
  }

  lemma Nvl5Loads(s: State, w: World, mode: FabricMode)
    ensures Loads(Nvl5Plan(s, w, mode).script) == [LoadModule(w, "ib_umad"), LoadModule(w, "mlx5_ib")]
  {
    var loads := [LoadModule(w, "ib_umad"), LoadModule(w, "mlx5_ib")];
    OnlyLoads(loads);
    match Infiniband.Detected(w.ib)
    case Ok(Some(guid)) =>
      BridgeLoadsNothing(s.(portGuid := Some(guid)), w, mode);
      LoadsAppend(loads, BridgePlan(s.(portGuid := Some(guid)), w, mode).script);
    case _ =>
      NoLoads([Panic]);
      LoadsAppend(loads, [Panic]);
  }

  function SwitchModules(w: World, nvswitch: Option<NvSwitch>): seq<Action> {
    match nvswitch
    case None => []
    case Some(Nvl4) => [LoadModule(w, "nvidia")]
    case Some(Nvl5) => [LoadModule(w, "ib_umad"), LoadModule(w, "mlx5_ib")]
  }

  /** The modules of a topology, in the order of loading. */
  function ModuleLoads(w: World, d: Detection): seq<Action> {
    (if d.mode == Gpu then [LoadModule(w, "nvidia"), LoadModule(w, "nvidia-uvm")] else [])
    + SwitchModules(w, d.nvswitch)
  }

  lemma GpuLoads(s: State, w: World, nvswitch: Option<NvSwitch>)
    ensures Loads(GpuPlan(s, w, nvswitch).script) == ModuleLoads(w, Detection(Gpu, nvswitch))
  {
    var loads := [LoadModule(w, "nvidia"), LoadModule(w, "nvidia-uvm")];
    var p := NvSwitchPlan(s, w, nvswitch);
    match nvswitch {
      case Some(Nvl4) => Nvl4Loads(s, w, FABRIC_MODE_FULL);
      case Some(Nvl5) => Nvl5Loads(s, w, FABRIC_MODE_FULL);
      case None =>
    }
    LoadsAppend(loads + p.script, GpuServicesPlan(p.state, w).script);
    LoadsAppend(loads, p.script);
    OnlyLoads(loads);
    ServicesLoadNothing(p.state, w);
    NoLoads(GpuServicesPlan(p.state, w).script);
  }

  lemma ModeLoads(w: World)
    requires Detect(w.pci).Ok?
    ensures Loads(ModeScript(w)) == ModuleLoads(w, Detect(w.pci).value)
  {
    var s, d := InitialState(w), Detect(w.pci).value;
    ModeMeans(w.pci);
    match d.mode
    case Cpu =>
    case Gpu => GpuLoads(s, w, d.nvswitch);
    case ServiceVmNvl4 => Nvl4Loads(s, w, FABRIC_MODE_SHARED);
    case ServiceVmNvl5 => Nvl5Loads(s, w, FABRIC_MODE_SHARED);
  }

  /** A boot that reaches the kata-agent has loaded exactly the modules of its topology, in order. */
  lemma ModulesLoadedExactly(w: World, replies: Replies)
    requires BootRun(w, replies).power == HandedOver
    ensures Detect(w.pci).Ok? && Loads(BootRun(w, replies).trace) == ModuleLoads(w, Detect(w.pci).value)
  {
    EveryBootEnds(w, replies);
    TopologyWasAccepted(w, replies);
    ModeLoads(w);
    BootLoads(w);
  }

  lemma EndsLoadNothing(w: World)
    ensures Loads(Early(w)) == Loads([DisableModules]) == Loads(HandOff(w)) == []
  {
    EarlyIsEarly(w);
    NoLoads(Early(w));
    NoLoads([DisableModules]);
    NoLoads(HandOff(w));
  }

  lemma BootLoads(w: World)
    ensures Loads(BootPlan(w).script) == Loads(ModeScript(w))
  {
    BootParts(w);
    EndsLoadNothing(w);
    FourLoads(Early(w), ModeScript(w), [DisableModules], HandOff(w));
  }

  lemma FourLoads(a: seq<Action>, b: seq<Action>, c: seq<Action>, d: seq<Action>)
    requires Loads(a) == Loads(c) == Loads(d) == []
    ensures Loads(a + b + c + d) == Loads(b)
  {
    LoadsAppend(a + b + c, d);
    LoadsAppend(a + b, c);
    LoadsAppend(a, b);
  }

  // ---------- How a boot begins ----------

  /** In any run, nothing is run, started or mounted before the file systems, the loopback device and the log are set
      up. */
  lemma SetUpFirst(w: World, replies: Replies, i: nat)
    requires i < |BootRun(w, replies).trace|
    requires var a := BootRun(w, replies).trace[i]; a.Run? || a.Spawn? || a.Mount?
    ensures i >= 8
    ensures BootRun(w, replies).trace[..8]
         == [Effect("mount /proc"), Effect("mount /sys"), Effect("mount /run"), Effect("mount /tmp"),
             Effect("mount optional file systems"), Effect("bring up lo"), Effect("set socket buffer sizes"),
             Effect("poll syslog")]
  {
    EveryBootEnds(w, replies);
    BootBegins(w);
    BeginsWith(BootRun(w, replies).trace, BootPlan(w).script, i);
  }

  lemma BootBegins(w: World)
    ensures EARLY_SETUP <= BootPlan(w).script
  {
  }

  lemma BeginsWith(trace: seq<Action>, script: seq<Action>, i: nat)
    requires trace <= script && EARLY_SETUP <= script && i < |trace|
    requires trace[i].Run? || trace[i].Spawn? || trace[i].Mount?
    ensures i >= 8 && trace[..8] == EARLY_SETUP
  {
    forall j | 0 <= j < 8 ensures script[j].Effect? {
      assert script[j] == EARLY_SETUP[j] && EARLY_SETUP[j].Effect?;
    }
  }

  // ---------- How a boot ends ----------

  /** The hand-over: after the lock-down, fork, limits, and the kata-agent, told of the gpu extension exactly if it was
      mounted. */
  lemma HandsOverLast(w: World, replies: Replies)
    requires BootRun(w, replies).power == HandedOver
    ensures var trace := BootRun(w, replies).trace;
            var n := |trace|;
            && n >= 6
            && trace[n - 6..] == [DisableModules, Fork, Effect("setrlimit"), Effect("write oom_score_adj"),
                                  Effect("getrlimit"), trace[n - 1]]
            && trace[n - 1] == Exec(if GpuMountedBefore(trace, n - 1) then Some("nvidia") else None)
  {
    EveryBootEnds(w, replies);
    BootEndsWith(w);
    GpuPresentExactly(w, replies, |BootRun(w, replies).trace| - 1);
  }

  lemma BootEndsWith(w: World)
    ensures var script := BootPlan(w).script;
            && |script| >= |Early(w)| + 6 && script[|script| - 6..] == [DisableModules] + HandOff(w)
            && script[|script| - 1] == Exec(if Present(w) then Some("nvidia") else None)
            && script[..|Early(w)|] == Early(w)
  {
    BootParts(w);
    LastSix(BootPlan(w).script, Early(w) + ModeScript(w), w);
    EarlyBegins(BootPlan(w).script, Early(w), ModeScript(w) + ([DisableModules] + HandOff(w)), w);
  }

  lemma LastSix(trace: seq<Action>, before: seq<Action>, w: World)
    requires trace == before + [DisableModules] + HandOff(w)
    ensures |trace| == |before| + 6 && trace[|trace| - 6..] == [DisableModules] + HandOff(w)
    ensures trace[|trace| - 1] == Exec(if Present(w) then Some("nvidia") else None)
  {
    assert trace == before + ([DisableModules] + HandOff(w));
  }

  lemma EarlyBegins(script: seq<Action>, early: seq<Action>, later: seq<Action>, w: World)
    requires script == Early(w) + ModeScript(w) + [DisableModules] + HandOff(w)
    requires early == Early(w) && later == ModeScript(w) + ([DisableModules] + HandOff(w))
    ensures script[..|early|] == early
  {
    Associative(early, ModeScript(w), [DisableModules] + HandOff(w));
    Associative(early + ModeScript(w), [DisableModules], HandOff(w));
    assert (early + later)[..|early|] == early;
  }
}
