/** src/main.rs, with the hand-off of src/kata_agent.rs: the boot sequence, as methods proved against plans.
    A plan says what is asked of the machine, and may go on after a panic; the machine does not. */
module Boot {
  import opened Text
  import opened Numerals
  import opened System
  import opened Nvrc
  import opened Daemon
  import opened Topology
  import opened KernelParams
  import Infiniband
  import Extensions
  import opened ExtensionMounts

  /** What NVRC reads, as it stays during a run: the kernel command line, whether writes to printk_devkmsg
      succeed, block devices and their partitions, whether the gpu extension has firmware, the PCI and InfiniBand
      devices, and the stock fabric manager configuration. */
  datatype World = World(cmdline: Option<string>, devkmsg: LogWritable,
                         blocks: Option<seq<Block>>, partitions: string -> Option<seq<Partition>>,
                         firmware: bool,
                         pci: PciBus, ib: Infiniband.IbClass, stock: string)

  // ---------- Plans ----------

  function MountOne(w: World, m: Mount): seq<Action> {
    match Partitions(w.partitions(m.dev))
    case None => [Panic]
    case Some((data, hash)) =>
      var dmName := EXTENSION_PREFIX + m.name;
      [Run(Veritysetup, VerityArgs(dmName, data, hash, m.verity)), Effect("create " + Target(m.name)),
       System.Mount("/dev/mapper/" + dmName, Target(m.name))]
  }

  function MountEach(w: World, plan: seq<Mount>): seq<Action> {
    if plan == [] then [] else MountEach(w, plan[..|plan| - 1]) + MountOne(w, plan[|plan| - 1])
  }

  /** The mounts to make, or None where NVRC panics. */
  function Planned(w: World): Option<seq<Mount>> {
    if w.cmdline == None then None
    else
      match (Extensions.ParseExtensions(w.cmdline.value), Discover(w.blocks))
      case (Some(params), Some(devices)) => Reconcile(params, devices)
      case _ => None
  }

  predicate Lists(plan: seq<Mount>, name: string) {
    plan != [] && (plan[0].name == name || Lists(plan[1..], name))
  }

  /** `gpu_extension::present`: the directory exists once the extension of this name has been mounted, as /run starts
      out empty. */
  predicate Present(w: World) {
    Planned(w).Some? && Lists(Planned(w).value, "gpu")
  }

  function LoadModule(w: World, moduleName: string): Action {
    Run(Modprobe, LoadArgs(moduleName, Present(w), w.pci))
  }

  function Nvl4Plan(s: State, w: World, mode: FabricMode): Plan {
    var p := FabricPlan(s, w.stock, mode, "greedy");
    Plan([LoadModule(w, "nvidia")] + p.script + Probes(|p.state.children|), p.state)
  }

  /** The subnet manager, checked, and then the fabric manager, checked. */
  function BridgePlan(s: State, w: World, mode: FabricMode): Plan {
    var p := NvlsmPlan(s, Present(w));
    var q := FabricPlan(p.state, w.stock, mode, "symmetric");
    Plan(p.script + Probes(|p.state.children|) + q.script + Probes(|q.state.children|), q.state)
  }

  function Nvl5Plan(s: State, w: World, mode: FabricMode): Plan {
    var loads := [LoadModule(w, "ib_umad"), LoadModule(w, "mlx5_ib")];
    match Infiniband.Detected(w.ib)
    case Ok(Some(guid)) =>
      var p := BridgePlan(s.(portGuid := Some(guid)), w, mode);
      Plan(loads + p.script, p.state)
    case _ => Plan(loads + [Panic], s)
  }

  function NvSwitchPlan(s: State, w: World, nvswitch: Option<NvSwitch>): Plan {
    match nvswitch
    case Some(Nvl4) => Nvl4Plan(s, w, FABRIC_MODE_FULL)
    case Some(Nvl5) => Nvl5Plan(s, w, FABRIC_MODE_FULL)
    case None => Plan([], s)
  }

  function Smi(option: string, setting: Option<u32>): seq<Action> {
    var args := SmiArgs(option, setting);
    if args.Some? then [Run(NvidiaSmi, args.value)] else []
  }

  function SmiClocks(s: Settings): seq<Action> {
    Smi("-lmc", s.lmc) + Smi("-lgc", s.lgc) + Smi("-pl", s.pl)
  }

  function SmiReady(s: Settings): seq<Action> {
    if s.srs.Some? then [Run(NvidiaSmi, ["conf-compute", "-srs", s.srs.value])] else []
  }

  function CdiArgs(present: bool): seq<string> {
    ["-d", "cdi", "generate", "--output=/var/run/cdi/nvidia.yaml"]
    + if present then ["--driver-root=" + EXTENSION_ROOT, "--dev-root=/",
                       "--nvidia-cdi-hook-path=" + EXTENSION_ROOT + "/bin/nvidia-cdi-hook"] else []
  }

  /** The daemons of gpu mode with the configuration between them, checked at the end. */
  function GpuServicesPlan(s: State, w: World): Plan {
    var p := PersistencedPlan(s);
    var q := HostenginePlan(p.state);
    var r := ExporterPlan(q.state);
    Plan(p.script + SmiClocks(s.settings) + q.script + r.script + [Run(NvidiaCtk, CdiArgs(Present(w)))]
         + SmiReady(s.settings) + Probes(|r.state.children|), r.state)
  }

  function GpuPlan(s: State, w: World, nvswitch: Option<NvSwitch>): Plan {
    var p := NvSwitchPlan(s, w, nvswitch);
    var q := GpuServicesPlan(p.state, w);
    Plan([LoadModule(w, "nvidia"), LoadModule(w, "nvidia-uvm")] + p.script + q.script, q.state)
  }

  function ModePlan(s: State, w: World): Plan {
    match Detect(w.pci)
    case Err(_) => Plan([Panic], s)
    case Ok(d) =>
      match d.mode
      case Cpu => Plan([], s)
      case Gpu => GpuPlan(s, w, d.nvswitch)
      case ServiceVmNvl4 => Nvl4Plan(s, w, FABRIC_MODE_SHARED)
      case ServiceVmNvl5 => Nvl5Plan(s, w, FABRIC_MODE_SHARED)
  }

  function ParamsPlan(s: State, w: World): Plan {
    if w.cmdline == None then Plan([Panic], s)
    else
      var r := Process(Fresh(s.settings), w.cmdline.value, w.devkmsg);
      Plan(if r.error.Some? then [Panic] else [], s.(settings := r.settings))
  }

  function MountsOf(w: World, plan: Option<seq<Mount>>): seq<Action> {
    if plan.Some? then MountEach(w, plan.value) else [Panic]
  }

  function MountScript(w: World): seq<Action> {
    [ReadFile("/proc/cmdline")] + MountsOf(w, Planned(w))
  }

  function FirmwareScript(w: World): seq<Action> {
    if Present(w) && w.firmware then [Effect("bind /lib/firmware/nvidia")] else []
  }

  function LdcacheScript(w: World): seq<Action> {
    if Present(w) then [Effect("write /run/ld.so.conf"),
                        Run(Ldconfig, ["-X", "-f", "/run/ld.so.conf", "-C", "/run/ld.so.cache"]),
                        Effect("bind /etc/ld.so.cache")] else []
  }

  function ExtensionScript(w: World): seq<Action> {
    FirmwareScript(w) + LdcacheScript(w)
  }

  const EARLY_SETUP: seq<Action> :=
    [Effect("mount /proc"), Effect("mount /sys"), Effect("mount /run"), Effect("mount /tmp"),
     Effect("mount optional file systems"), Effect("bring up lo"), Effect("set socket buffer sizes"),
     Effect("poll syslog")]

  function HandOff(w: World): seq<Action> {
    [Fork, Effect("setrlimit"), Effect("write oom_score_adj"), Effect("getrlimit"),
     Exec(if Present(w) then Some("nvidia") else None)]
  }

  const BORN := State(NO_SETTINGS, None, [])

  function BootPlan(w: World): Plan {
    var p := ParamsPlan(BORN, w);
    var q := ModePlan(p.state, w);
    Plan(EARLY_SETUP + p.script + [Effect("hash /proc/self/exe")] + MountScript(w) + ExtensionScript(w)
         + q.script + [DisableModules] + HandOff(w), q.state)
  }

  // ---------- The program ----------

  method Load(w: World, machine: Machine, moduleName: string)
    requires machine.Valid()
    modifies machine
    ensures machine.Valid() && machine.asked == old(machine.asked) + [LoadModule(w, moduleName)]
  {
    var singleGpu := moduleName == "nvidia" && Gpus(w.pci) == 1;
    var args := BuildArgs(moduleName, Dirname(Present(w), moduleName), singleGpu);
    machine.Do(Run(Modprobe, args));
  }

  method ModeNvl4(init: NVRC, machine: Machine, w: World, mode: FabricMode)
    requires machine.Valid()
    modifies init, machine
    ensures machine.Valid()
    ensures Plan(machine.asked, init.Now()) ==
            var p := Nvl4Plan(old(init.Now()), w, mode); Plan(old(machine.asked) + p.script, p.state)
  {
    ghost var before, p := machine.asked, FabricPlan(init.Now(), w.stock, mode, "greedy");
    Load(w, machine, "nvidia");
    NvFabricmanager(init, machine, w.stock, mode, "greedy");
    Associative(before, [LoadModule(w, "nvidia")], p.script);
    init.HealthChecks(machine);
    Associative(before, [LoadModule(w, "nvidia")] + p.script, Probes(|p.state.children|));
  }

  method Bridges(init: NVRC, machine: Machine, w: World, mode: FabricMode)
    requires machine.Valid()
    modifies init`children, machine
    ensures machine.Valid()
    ensures Plan(machine.asked, init.Now()) ==
            var p := BridgePlan(old(init.Now()), w, mode); Plan(old(machine.asked) + p.script, p.state)
  {
    ghost var before, s := machine.asked, init.Now();
    ghost var p := NvlsmPlan(s, Present(w));
    ghost var q := FabricPlan(p.state, w.stock, mode, "symmetric");
    NvNvlsm(init, machine, Present(w));
    init.HealthChecks(machine);
    Associative(before, p.script, Probes(|p.state.children|));
    ghost var done := p.script + Probes(|p.state.children|);
    NvFabricmanager(init, machine, w.stock, mode, "symmetric");
    Associative(before, done, q.script);
    done := done + q.script;
    init.HealthChecks(machine);
    Associative(before, done, Probes(|q.state.children|));
  }

  method ModeNvl5(init: NVRC, machine: Machine, w: World, mode: FabricMode)
    requires machine.Valid()
    modifies init, machine
    ensures machine.Valid()
    ensures Plan(machine.asked, init.Now()) ==
            var p := Nvl5Plan(old(init.Now()), w, mode); Plan(old(machine.asked) + p.script, p.state)
  {
    ghost var before, s := machine.asked, init.Now();
    ghost var loads := [LoadModule(w, "ib_umad"), LoadModule(w, "mlx5_ib")];
    Load(w, machine, "ib_umad");
    Load(w, machine, "mlx5_ib");
    assert machine.asked == before + loads;
    var detected := Infiniband.DetectPortGuid(w.ib);
    if detected.Err? || detected.value == None {
      machine.Do(Panic);
      Associative(before, loads, [Panic]);
      return;
    }
    init.portGuid := detected.value;
    Bridges(init, machine, w, mode);
    Associative(before, loads, BridgePlan(s.(portGuid := detected.value), w, mode).script);
  }

  method RunNvidiaSmi(machine: Machine, option: string, setting: Option<u32>)
    requires machine.Valid()
    modifies machine
    ensures machine.Valid() && machine.asked == old(machine.asked) + Smi(option, setting)
  {
    if setting == None {
      return;
    }
    machine.Do(Run(NvidiaSmi, [option, Decimal(setting.value)]));
  }

  method GpuServices(init: NVRC, machine: Machine, w: World)
    requires machine.Valid()
    modifies init`children, machine
    ensures machine.Valid()
    ensures Plan(machine.asked, init.Now()) ==
            var p := GpuServicesPlan(old(init.Now()), w); Plan(old(machine.asked) + p.script, p.state)
  {
    ghost var before, s := machine.asked, init.Now();
    ghost var p := PersistencedPlan(s);
    ghost var q := HostenginePlan(p.state);
    ghost var r := ExporterPlan(q.state);
    NvidiaPersistenced(init, machine);
    Clocks(init, machine);
    Associative(before, p.script, SmiClocks(s.settings));
    ghost var done := p.script + SmiClocks(s.settings);
    NvHostengine(init, machine);
    Associative(before, done, q.script);
    done := done + q.script;
    StartDcgmExporter(init, machine);
    Associative(before, done, r.script);
    done := done + r.script;
    machine.Do(Run(NvidiaCtk, CdiArgs(Present(w))));
    Associative(before, done, [Run(NvidiaCtk, CdiArgs(Present(w)))]);
    done := done + [Run(NvidiaCtk, CdiArgs(Present(w)))];
    SetReady(init, machine);
    Associative(before, done, SmiReady(s.settings));
    done := done + SmiReady(s.settings);
    init.HealthChecks(machine);
    Associative(before, done, Probes(|r.state.children|));
  }

  method SetReady(init: NVRC, machine: Machine)
    requires machine.Valid()
    modifies machine
    ensures machine.Valid() && machine.asked == old(machine.asked) + SmiReady(init.CurrentSettings())
  {
    if init.nvidiaSmiSrs == None {
      return;
    }
    machine.Do(Run(NvidiaSmi, ["conf-compute", "-srs", init.nvidiaSmiSrs.value]));
  }

  method Clocks(init: NVRC, machine: Machine)
    requires machine.Valid()
    modifies machine
    ensures machine.Valid() && machine.asked == old(machine.asked) + SmiClocks(init.CurrentSettings())
  {
    RunNvidiaSmi(machine, "-lmc", init.nvidiaSmiLmc);
    RunNvidiaSmi(machine, "-lgc", init.nvidiaSmiLgc);
    RunNvidiaSmi(machine, "-pl", init.nvidiaSmiPl);
  }

  method ModeGpu(init: NVRC, machine: Machine, w: World, nvswitch: Option<NvSwitch>)
    requires machine.Valid()
    modifies init, machine
    ensures machine.Valid()
    ensures Plan(machine.asked, init.Now()) ==
            var p := GpuPlan(old(init.Now()), w, nvswitch); Plan(old(machine.asked) + p.script, p.state)
  {
    ghost var before, s := machine.asked, init.Now();
    ghost var loads := [LoadModule(w, "nvidia"), LoadModule(w, "nvidia-uvm")];
    ghost var p := NvSwitchPlan(s, w, nvswitch);
    Load(w, machine, "nvidia");
    Load(w, machine, "nvidia-uvm");
    assert machine.asked == before + loads;
    RunNvSwitch(init, machine, w, nvswitch);
    Associative(before, loads, p.script);
    GpuServices(init, machine, w);
    Associative(before, loads + p.script, GpuServicesPlan(p.state, w).script);
  }

  method RunNvSwitch(init: NVRC, machine: Machine, w: World, nvswitch: Option<NvSwitch>)
    requires machine.Valid()
    modifies init, machine
    ensures machine.Valid()
    ensures Plan(machine.asked, init.Now()) ==
            var p := NvSwitchPlan(old(init.Now()), w, nvswitch); Plan(old(machine.asked) + p.script, p.state)
  {
    match nvswitch
    case Some(Nvl4) => ModeNvl4(init, machine, w, FABRIC_MODE_FULL);
    case Some(Nvl5) => ModeNvl5(init, machine, w, FABRIC_MODE_FULL);
    case None =>
  }

  method RunMode(init: NVRC, machine: Machine, w: World)
    requires machine.Valid()
    modifies init, machine
    ensures machine.Valid()
    ensures Plan(machine.asked, init.Now()) ==
            var p := ModePlan(old(init.Now()), w); Plan(old(machine.asked) + p.script, p.state)
  {
    var detected := Detect(w.pci);
    if detected.Err? {
      machine.Do(Panic);
      return;
    }
    match detected.value.mode
    case Cpu =>
    case Gpu => ModeGpu(init, machine, w, detected.value.nvswitch);
    case ServiceVmNvl4 => ModeNvl4(init, machine, w, FABRIC_MODE_SHARED);
    case ServiceVmNvl5 => ModeNvl5(init, machine, w, FABRIC_MODE_SHARED);
  }

  method ProcessKernelParams(init: NVRC, machine: Machine, w: World)
    requires machine.Valid()
    modifies init, machine
    ensures machine.Valid()
    ensures Plan(machine.asked, init.Now()) ==
            var p := ParamsPlan(old(init.Now()), w); Plan(old(machine.asked) + p.script, p.state)
  {
    var error := TryProcessKernelParams(init, None, w.cmdline, w.devkmsg);
    if error.Some? {
      machine.Do(Panic);
    }
  }

  method MountExtension(machine: Machine, w: World, m: Mount)
    requires machine.Valid()
    modifies machine
    ensures machine.Valid() && machine.asked == old(machine.asked) + MountOne(w, m)
  {
    var found := FindPartitions(w.partitions(m.dev));
    if found == None {
      machine.Do(Panic);
      return;
    }
    var (data, hash) := found.value;
    var dmName := EXTENSION_PREFIX + m.name;
    machine.Do(Run(Veritysetup, VerityArgs(dmName, data, hash, m.verity)));
    machine.Do(Effect("create " + Target(m.name)));
    machine.Do(System.Mount("/dev/mapper/" + dmName, Target(m.name)));
  }

  method MountAll(machine: Machine, w: World)
    requires machine.Valid()
    modifies machine
    ensures machine.Valid() && machine.asked == old(machine.asked) + MountScript(w)
  {
    machine.Do(ReadFile("/proc/cmdline"));
    var plan := PlanAll(w);
    MountPlanned(machine, w, plan);
    Associative(old(machine.asked), [ReadFile("/proc/cmdline")], MountsOf(w, plan));
  }

  method MountPlanned(machine: Machine, w: World, plan: Option<seq<Mount>>)
    requires machine.Valid()
    modifies machine
    ensures machine.Valid() && machine.asked == old(machine.asked) + MountsOf(w, plan)
  {
    if plan == None {
      machine.Do(Panic);
      return;
    }
    MountEvery(machine, w, plan.value);
  }

  method PlanAll(w: World) returns (plan: Option<seq<Mount>>)
    ensures plan == Planned(w)
  {
    if w.cmdline == None {
      return None;
    }
    var params, devices := Extensions.ParseExtensions(w.cmdline.value), Discover(w.blocks);
    if params == None || devices == None {
      return None;
    }
    plan := PlanMounts(params.value, devices.value);
  }

  method MountEvery(machine: Machine, w: World, plan: seq<Mount>)
    requires machine.Valid()
    modifies machine
    ensures machine.Valid() && machine.asked == old(machine.asked) + MountEach(w, plan)
  {
    for i := 0 to |plan|
      invariant machine.Valid() && machine.asked == old(machine.asked) + MountEach(w, plan[..i])
    {
      MountExtension(machine, w, plan[i]);
      assert plan[..i + 1][..i] == plan[..i];
    }
    assert plan[..|plan|] == plan;
  }

  method SetUpExtension(machine: Machine, w: World)
    requires machine.Valid()
    modifies machine
    ensures machine.Valid() && machine.asked == old(machine.asked) + ExtensionScript(w)
  {
    BindFirmware(machine, w);
    RefreshLdcache(machine, w);
    Associative(old(machine.asked), FirmwareScript(w), LdcacheScript(w));
  }

  method BindFirmware(machine: Machine, w: World)
    requires machine.Valid()
    modifies machine
    ensures machine.Valid() && machine.asked == old(machine.asked) + FirmwareScript(w)
  {
    if Present(w) && w.firmware {
      machine.Do(Effect("bind /lib/firmware/nvidia"));
    }
  }

  method RefreshLdcache(machine: Machine, w: World)
    requires machine.Valid()
    modifies machine
    ensures machine.Valid() && machine.asked == old(machine.asked) + LdcacheScript(w)
  {
    if !Present(w) {
      return;
    }
    machine.Do(Effect("write /run/ld.so.conf"));
    machine.Do(Run(Ldconfig, ["-X", "-f", "/run/ld.so.conf", "-C", "/run/ld.so.cache"]));
    machine.Do(Effect("bind /etc/ld.so.cache"));
  }

  method SetUpEarly(machine: Machine)
    requires machine.Valid()
    modifies machine
    ensures machine.Valid() && machine.asked == old(machine.asked) + EARLY_SETUP
  {
    machine.Do(Effect("mount /proc"));
    machine.Do(Effect("mount /sys"));
    machine.Do(Effect("mount /run"));
    machine.Do(Effect("mount /tmp"));
    machine.Do(Effect("mount optional file systems"));
    machine.Do(Effect("bring up lo"));
    machine.Do(Effect("set socket buffer sizes"));
    machine.Do(Effect("poll syslog"));
  }

  /** The parent's side of `fork_agent`; the child runs `syslog_loop`. */
  method ForkAgent(machine: Machine, w: World)
    requires machine.Valid()
    modifies machine
    ensures machine.Valid() && machine.asked == old(machine.asked) + HandOff(w)
  {
    var variant := if Present(w) then Some("nvidia") else None;
    machine.Do(Fork);
    KataAgent(machine, variant);
    Associative(old(machine.asked), [Fork],
                [Effect("setrlimit"), Effect("write oom_score_adj"), Effect("getrlimit"), Exec(variant)]);
  }

  method KataAgent(machine: Machine, variant: Option<string>)
    requires machine.Valid()
    modifies machine
    ensures machine.Valid()
    ensures machine.asked == old(machine.asked)
            + [Effect("setrlimit"), Effect("write oom_score_adj"), Effect("getrlimit"), Exec(variant)]
  {
    SetUpAgent(machine);
    machine.Do(Exec(variant));
  }

  method SetUpAgent(machine: Machine)
    requires machine.Valid()
    modifies machine
    ensures machine.Valid()
    ensures machine.asked == old(machine.asked)
            + [Effect("setrlimit"), Effect("write oom_score_adj"), Effect("getrlimit")]
  {
    machine.Do(Effect("setrlimit"));
    machine.Do(Effect("write oom_score_adj"));
    machine.Do(Effect("getrlimit"));
  }

  /** `main`. What really happened is in the machine's history: the run of the boot plan. */
  method BootNvrc(w: World, replies: Replies) returns (h: History)
    ensures h == Execute(START, BootPlan(w).script, replies)
  {
    var machine := new Machine(replies);
    var init := new NVRC();
    ghost var p := ParamsPlan(BORN, w);
    ghost var q := ModePlan(p.state, w);
    SetUpEarly(machine);
    assert machine.asked == EARLY_SETUP;
    ghost var done := EARLY_SETUP;
    ProcessKernelParams(init, machine, w);
    done := done + p.script;
    machine.Do(Effect("hash /proc/self/exe"));
    done := done + [Effect("hash /proc/self/exe")];
    MountAll(machine, w);
    done := done + MountScript(w);
    SetUpExtension(machine, w);
    done := done + ExtensionScript(w);
    RunMode(init, machine, w);
    done := done + q.script;
    machine.Do(DisableModules);
    done := done + [DisableModules];
    ForkAgent(machine, w);
    done := done + HandOff(w);
    assert machine.asked == done;
    h := machine.history;
  }
}
