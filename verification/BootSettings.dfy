/** From the kernel command line to what a boot does with the GPU. */
module BootSettings {
  import opened Text
  import opened System
  import opened Nvrc
  import opened Daemon
  import opened Topology
  import opened KernelParams
  import Infiniband
  import opened Boot
  import opened BootSafety
  import opened BootMounts

  function TokensOf(w: World): seq<Token> {
    if w.cmdline.Some? then Pairs(SplitWhitespace(w.cmdline.value)) else []
  }

  function InitialState(w: World): State {
    ParamsPlan(BORN, w).state
  }

  lemma PanicAtOnce(w: World)
    requires w.cmdline == None || Process(Fresh(NO_SETTINGS), w.cmdline.value, w.devkmsg).error.Some?
    ensures Panic in BootPlan(w).script
  {
    BootParts(w);
    assert Panic in ParamsPlan(BORN, w).script;
    InEarly(EARLY_SETUP, ParamsPlan(BORN, w).script, [Effect("hash /proc/self/exe")], MountScript(w),
            ExtensionScript(w));
    assert Panic in Early(w);
  }

  lemma InEarly(a: seq<Action>, b: seq<Action>, c: seq<Action>, d: seq<Action>, e: seq<Action>)
    requires Panic in b
    ensures Panic in a + b + c + d + e
  {
  }

  /** A boot that reaches the kata-agent ran with the settings that the command line asks for. */
  lemma SettingsAreLatest(w: World, replies: Replies)
    requires BootRun(w, replies).power == HandedOver
    ensures w.cmdline.Some? && Fold(Fresh(NO_SETTINGS), TokensOf(w), w.devkmsg).error == None
    ensures InitialState(w) == State(Latest(NO_SETTINGS, TokensOf(w)), None, [])
  {
    EveryBootEnds(w, replies);
    NoPanicAtHandOver(BootRun(w, replies), BootPlan(w).script, replies);
    if w.cmdline == None || Process(Fresh(NO_SETTINGS), w.cmdline.value, w.devkmsg).error.Some? {
      PanicAtOnce(w);
    } else {
      LastWins(Fresh(NO_SETTINGS), TokensOf(w), w.devkmsg);
    }
  }

  // ---------- The services of gpu mode ----------

  lemma SwitchKeepsSettings(s: State, w: World, nvswitch: Option<NvSwitch>)
    ensures NvSwitchPlan(s, w, nvswitch).state.settings == s.settings
  {
  }

  lemma ServicesInBoot(w: World)
    requires Detect(w.pci).Ok? && Detect(w.pci).value.mode == Gpu
    ensures var s := NvSwitchPlan(InitialState(w), w, Detect(w.pci).value.nvswitch).state;
            && s.settings == InitialState(w).settings
            && forall a <- GpuServicesPlan(s, w).script :: a in BootPlan(w).script
  {
    BootParts(w);
    SwitchKeepsSettings(InitialState(w), w, Detect(w.pci).value.nvswitch);
    var s := NvSwitchPlan(InitialState(w), w, Detect(w.pci).value.nvswitch).state;
    assert forall a <- GpuServicesPlan(s, w).script :: a in ModeScript(w);
    assert forall a <- ModeScript(w) :: a in BootPlan(w).script;
  }

  function OptionOf(param: Param): string {
    match param
    case Lmc => "-lmc"
    case Lgc => "-lgc"
    case _ => "-pl"
  }

  lemma SmiInServices(s: State, w: World, param: Param)
    requires IsNumber(param)
    ensures var setting :=
              if param == Lgc then s.settings.lgc else if param == Lmc then s.settings.lmc else s.settings.pl;
            setting.Some? ==> Run(NvidiaSmi, SmiArgs(OptionOf(param), setting).value) in GpuServicesPlan(s, w).script
  {
    assert forall a <- SmiClocks(s.settings) :: a in GpuServicesPlan(s, w).script;
  }

  /** nvidia-smi with a number that a text denotes. */
  predicate SetsClock(a: Action, option: string, value: string) {
    && a.Run? && a.program.NvidiaSmi? && |a.args| == 2 && a.args[0] == option
    && ParseU32(a.args[1]).Some? && ParseU32(a.args[1]) == ParseU32(value)
  }

  lemma ServicesSetClock(s: State, w: World, param: Param)
    requires Fold(Fresh(NO_SETTINGS), TokensOf(w), w.devkmsg).error == None
    requires IsNumber(param) && Last(TokensOf(w), param).Some?
    requires s.settings == Fold(Fresh(NO_SETTINGS), TokensOf(w), w.devkmsg).settings
    ensures exists a <- GpuServicesPlan(s, w).script :: SetsClock(a, OptionOf(param), Last(TokensOf(w), param).value)
  {
    SmiInServices(s, w, param);
    FailsIfBad(Fresh(NO_SETTINGS), TokensOf(w), w.devkmsg, param);
    SmiGetsTheNumber(Fresh(NO_SETTINGS), TokensOf(w), w.devkmsg, param, OptionOf(param));
  }

  /** A boot in gpu mode that reaches the kata-agent has run nvidia-smi with the very number that the last
      clock or power parameter of the command line denotes. */
  lemma ClocksAreSet(w: World, replies: Replies, param: Param)
    requires BootRun(w, replies).power == HandedOver
    requires Detect(w.pci).Ok? && Detect(w.pci).value.mode == Gpu
    requires IsNumber(param) && Last(TokensOf(w), param).Some?
    ensures exists a <- BootRun(w, replies).trace :: SetsClock(a, OptionOf(param), Last(TokensOf(w), param).value)
  {
    SettingsAreLatest(w, replies);
    LastWins(Fresh(NO_SETTINGS), TokensOf(w), w.devkmsg);
    EveryBootEnds(w, replies);
    ServicesInBoot(w);
    ServicesSetClock(NvSwitchPlan(InitialState(w), w, Detect(w.pci).value.nvswitch).state, w, param);
  }

  // ---------- Monitoring only on demand ----------

  predicate IsMonitor(a: Action) {
    a.Spawn? && (a.program.Hostengine? || a.program.DcgmExporter?)
  }

  predicate Unmonitored(script: seq<Action>) {
    forall a <- script :: !IsMonitor(a)
  }

  lemma ProbesUnmonitored(n: nat)
    ensures Unmonitored(Probes(n))
  {
    ProbesAre(n);
  }

  lemma FabricUnmonitored(s: State, w: World, mode: FabricMode)
    ensures Unmonitored(Nvl4Plan(s, w, mode).script)
    ensures Unmonitored(BridgePlan(s, w, mode).script)
    ensures Unmonitored(Nvl5Plan(s, w, mode).script)
  {
    ProbesUnmonitored(|Nvl4Plan(s, w, mode).state.children|);
    BridgeUnmonitored(s, w, mode);
    match Infiniband.Detected(w.ib)
    case Ok(Some(guid)) => BridgeUnmonitored(s.(portGuid := Some(guid)), w, mode);
    case _ =>
  }

  lemma BridgeUnmonitored(s: State, w: World, mode: FabricMode)
    ensures Unmonitored(BridgePlan(s, w, mode).script)
  {
    ProbesUnmonitored(|NvlsmPlan(s, Present(w)).state.children|);
    ProbesUnmonitored(|BridgePlan(s, w, mode).state.children|);
  }

  lemma ServicesMonitor(s: State, w: World)
    ensures (exists a <- GpuServicesPlan(s, w).script :: IsMonitor(a)) <==> s.settings.dcgm == Some(true)
  {
    var p := PersistencedPlan(s);
    var q := HostenginePlan(p.state);
    var r := ExporterPlan(q.state);
    ProbesUnmonitored(|r.state.children|);
    assert Unmonitored(SmiClocks(s.settings)) && Unmonitored(p.script) && Unmonitored(SmiReady(s.settings));
    if s.settings.dcgm == Some(true) {
      var start := Spawn(|p.state.children|, Hostengine, HOSTENGINE_ARGS);
      assert start in q.script && IsMonitor(start);
      assert start in GpuServicesPlan(s, w).script;
    }
  }

  lemma ModeMonitors(w: World)
    ensures (exists a <- ModeScript(w) :: IsMonitor(a)) <==>
              Detect(w.pci).Ok? && Detect(w.pci).value.mode == Gpu && InitialState(w).settings.dcgm == Some(true)
  {
    var s := InitialState(w);
    match Detect(w.pci)
    case Err(_) =>
    case Ok(d) =>
      match d.mode
      case Cpu =>
      case Gpu =>
        SwitchUnmonitored(s, w, d.nvswitch);
        SwitchKeepsSettings(s, w, d.nvswitch);
        ServicesMonitor(NvSwitchPlan(s, w, d.nvswitch).state, w);
      case ServiceVmNvl4 => FabricUnmonitored(s, w, FABRIC_MODE_SHARED);
      case ServiceVmNvl5 => FabricUnmonitored(s, w, FABRIC_MODE_SHARED);
  }

  lemma SwitchUnmonitored(s: State, w: World, nvswitch: Option<NvSwitch>)
    ensures Unmonitored(NvSwitchPlan(s, w, nvswitch).script)
  {
    FabricUnmonitored(s, w, FABRIC_MODE_FULL);
  }

  lemma BootMonitors(w: World)
    ensures (exists a <- BootPlan(w).script :: IsMonitor(a)) <==> (exists a <- ModeScript(w) :: IsMonitor(a))
  {
    BootParts(w);
    EarlyIsEarly(w);
    assert Unmonitored(Early(w)) && Unmonitored([DisableModules]) && Unmonitored(HandOff(w));
  }

  /** A boot that reaches the kata-agent has started DCGM exactly when it is in gpu mode and the last
      `nvrc.dcgm` of the command line says so. */
  lemma MonitorsOnDemand(w: World, replies: Replies)
    requires BootRun(w, replies).power == HandedOver
    ensures (exists a <- BootRun(w, replies).trace :: IsMonitor(a)) <==>
              && Detect(w.pci).Ok? && Detect(w.pci).value.mode == Gpu
              && Last(TokensOf(w), Dcgm).Some? && ParseBoolean(Last(TokensOf(w), Dcgm).value)
  {
    EveryBootEnds(w, replies);
    SettingsAreLatest(w, replies);
    BootMonitors(w);
    ModeMonitors(w);
  }

  // ---------- The persistence daemon's mode, the ready state, the CDI specification ----------

  predicate StartsService(a: Action) {
    a.Spawn? && (a.program.Persistenced? || a.program.Hostengine? || a.program.DcgmExporter?)
  }

  predicate NoService(script: seq<Action>) {
    forall a <- script :: !StartsService(a)
  }

  lemma BridgeNoService(s: State, w: World, mode: FabricMode)
    ensures NoService(BridgePlan(s, w, mode).script)
  {
    ProbesAre(|NvlsmPlan(s, Present(w)).state.children|);
    ProbesAre(|BridgePlan(s, w, mode).state.children|);
  }

  lemma FabricNoService(s: State, w: World, mode: FabricMode)
    ensures NoService(Nvl4Plan(s, w, mode).script)
    ensures NoService(Nvl5Plan(s, w, mode).script)
  {
    ProbesAre(|Nvl4Plan(s, w, mode).state.children|);
    match Infiniband.Detected(w.ib)
    case Ok(Some(guid)) => BridgeNoService(s.(portGuid := Some(guid)), w, mode);
    case _ =>
  }

  /** The arguments of gpu mode's daemons, with UVM persistence off or on. */
  predicate ArgsFit(a: Action, off: bool) {
    && (a.Spawn? && a.program.Persistenced? ==>
          a.args == if off then ["--verbose"] else ["--verbose", "--uvm-persistence-mode"])
    && (a.Spawn? && a.program.Hostengine? ==> a.args == ["--service-account", "nvidia-dcgm", "--home-dir", "/tmp"])
    && (a.Spawn? && a.program.DcgmExporter? ==> a.args == ["-k", "-f", "/etc/dcgm-exporter/default-counters.csv"])
  }

  predicate AllFit(script: seq<Action>, off: bool) {
    forall a <- script :: ArgsFit(a, off)
  }

  lemma PersistencedFits(s: State)
    ensures AllFit(PersistencedPlan(s).script, s.settings.uvm == Some(false))
  {
  }

  lemma DcgmFits(s: State, off: bool)
    ensures AllFit(HostenginePlan(s).script, off) && AllFit(ExporterPlan(s).script, off)
    ensures NoService(SmiClocks(s.settings)) && NoService(SmiReady(s.settings))
  {
  }

  lemma SevenFit(a: seq<Action>, b: seq<Action>, c: seq<Action>, d: seq<Action>, e: seq<Action>, f: seq<Action>,
                 g: seq<Action>, off: bool)
    requires AllFit(a, off) && NoService(b) && AllFit(c, off) && AllFit(d, off)
    requires NoService(e) && NoService(f) && NoService(g)
    ensures AllFit(a + b + c + d + e + f + g, off)
  {
  }

  lemma ServicesPersistenced(s: State, w: World)
    ensures AllFit(GpuServicesPlan(s, w).script, s.settings.uvm == Some(false))
  {
    var p := PersistencedPlan(s);
    var q := HostenginePlan(p.state);
    var r := ExporterPlan(q.state);
    ProbesAre(|r.state.children|);
    PersistencedFits(s);
    DcgmFits(s, s.settings.uvm == Some(false));
    DcgmFits(p.state, s.settings.uvm == Some(false));
    DcgmFits(q.state, s.settings.uvm == Some(false));
    SevenFit(p.script, SmiClocks(s.settings), q.script, r.script, [Run(NvidiaCtk, CdiArgs(Present(w)))],
             SmiReady(s.settings), Probes(|r.state.children|), s.settings.uvm == Some(false));
  }

  lemma ThreeFit(a: seq<Action>, b: seq<Action>, c: seq<Action>, off: bool)
    requires NoService(a) && NoService(b) && AllFit(c, off)
    ensures AllFit(a + b + c, off)
  {
  }

  lemma GpuPersistenced(s: State, w: World, nvswitch: Option<NvSwitch>)
    ensures AllFit(GpuPlan(s, w, nvswitch).script, s.settings.uvm == Some(false))
  {
    var p := NvSwitchPlan(s, w, nvswitch);
    FabricNoService(s, w, FABRIC_MODE_FULL);
    SwitchKeepsSettings(s, w, nvswitch);
    ServicesPersistenced(p.state, w);
    ThreeFit([LoadModule(w, "nvidia"), LoadModule(w, "nvidia-uvm")], p.script, GpuServicesPlan(p.state, w).script,
             s.settings.uvm == Some(false));
  }

  lemma ModePersistenced(w: World)
    ensures AllFit(ModeScript(w), InitialState(w).settings.uvm == Some(false))
  {
    var s := InitialState(w);
    match Detect(w.pci)
    case Err(_) =>
    case Ok(d) =>
      FabricNoService(s, w, FABRIC_MODE_SHARED);
      if d.mode == Gpu {
        GpuPersistenced(s, w, d.nvswitch);
      }
  }

  lemma OutsideModes(w: World)
    ensures forall a <- BootPlan(w).script :: StartsService(a) ==> a in ModeScript(w)
  {
    BootParts(w);
    EarlyIsEarly(w);
  }

  lemma FitsInRun(trace: seq<Action>, script: seq<Action>, mode: seq<Action>, off: bool)
    requires trace <= script && AllFit(mode, off)
    requires forall a <- script :: StartsService(a) ==> a in mode
    ensures AllFit(trace, off)
  {
  }

  /** A boot that reaches the kata-agent has started the persistence daemon, if at all, in UVM persistence mode, unless
      the last `nvrc.uvm.persistence.mode` of the command line says no; and the other daemons of gpu mode with their
      fixed arguments. */
  lemma ServiceArguments(w: World, replies: Replies)
    requires BootRun(w, replies).power == HandedOver
    ensures var uvm := Last(TokensOf(w), Uvm);
            AllFit(BootRun(w, replies).trace, uvm.Some? && !ParseBoolean(uvm.value))
  {
    EveryBootEnds(w, replies);
    SettingsAreLatest(w, replies);
    OutsideModes(w);
    ModePersistenced(w);
    FitsInRun(BootRun(w, replies).trace, BootPlan(w).script, ModeScript(w),
              InitialState(w).settings.uvm == Some(false));
  }

  lemma ServicesEnd(s: State, w: World)
    ensures s.settings.srs.Some? ==>
              Run(NvidiaSmi, ["conf-compute", "-srs", s.settings.srs.value]) in GpuServicesPlan(s, w).script
    ensures Run(NvidiaCtk, CdiArgs(Present(w))) in GpuServicesPlan(s, w).script
  {
  }

  /** In gpu mode it has set the ready state of the last `nvrc.smi.srs`, and generated the CDI specification, with the
      extension's paths exactly if there is one. */
  lemma ReadyStateIsSet(w: World, replies: Replies)
    requires BootRun(w, replies).power == HandedOver
    requires Detect(w.pci).Ok? && Detect(w.pci).value.mode == Gpu
    ensures var srs := Last(TokensOf(w), Srs);
            srs.Some? ==> Run(NvidiaSmi, ["conf-compute", "-srs", srs.value]) in BootRun(w, replies).trace
    ensures Run(NvidiaCtk, ["-d", "cdi", "generate", "--output=/var/run/cdi/nvidia.yaml"]
                           + if Present(w) then ["--driver-root=" + "/run/kata-extensions/gpu", "--dev-root=/",
                                                 "--nvidia-cdi-hook-path=" + "/run/kata-extensions/gpu"
                                                 + "/bin/nvidia-cdi-hook"]
                             else [])
            in BootRun(w, replies).trace
  {
    EveryBootEnds(w, replies);
    SettingsAreLatest(w, replies);
    ServicesInBoot(w);
    ServicesEnd(NvSwitchPlan(InitialState(w), w, Detect(w.pci).value.nvswitch).state, w);
  }
}
