/** What holds of every start of the fabric manager. */
module BootFabric {
  import opened Text
  import opened Numerals
  import opened System
  import opened Nvrc
  import opened Daemon
  import opened Topology
  import opened ConfigFile
  import Infiniband
  import opened Boot
  import opened BootSafety

  predicate IsFabricStart(a: Action) {
    a.Spawn? && a.program.FabricManager?
  }

  predicate IsNvlsmStart(a: Action) {
    a.Spawn? && a.program.Nvlsm?
  }

  predicate Quiet(script: seq<Action>) {
    forall a <- script :: !IsFabricStart(a) && !IsNvlsmStart(a)
  }

  /** What a file holds after a trace, as far as the trace wrote it. */
  function FileAt(trace: seq<Action>, path: string): Option<string>
    decreases |trace|
  {
    if trace == [] then None
    else
      match trace[|trace| - 1]
      case CopyTo(p, content) => if p == path then Some(content) else FileAt(trace[..|trace| - 1], path)
      case WriteFile(p, content) => if p == path then Some(content) else FileAt(trace[..|trace| - 1], path)
      case _ => FileAt(trace[..|trace| - 1], path)
  }

  lemma FileAtMore(trace: seq<Action>, a: Action, path: string)
    requires !a.CopyTo? && !a.WriteFile?
    ensures FileAt(trace + [a], path) == FileAt(trace, path)
  {
    var more := trace + [a];
    assert more[..|more| - 1] == trace && more[|more| - 1] == a;
  }

  lemma FileAtWrite(trace: seq<Action>, path: string, content: string)
    ensures FileAt(trace + [WriteFile(path, content)], path) == Some(content)
  {
    var more := trace + [WriteFile(path, content)];
    assert more[|more| - 1] == WriteFile(path, content);
  }

  lemma SetupWrites(pre: seq<Action>, stock: string, mode: FabricMode, railPolicy: string)
    ensures FileAt(pre + FabricSetup(stock, mode, railPolicy), FM_RUNTIME_CONFIG)
              == Some(FabricConfig(stock, mode, railPolicy))
  {
    var config := FabricConfig(stock, mode, railPolicy);
    var x := pre + [CopyTo(FM_RUNTIME_CONFIG, stock), ReadFile(FM_RUNTIME_CONFIG)];
    var y := x + [WriteFile(FM_RUNTIME_CONFIG, config)];
    FileAtWrite(x, FM_RUNTIME_CONFIG, config);
    FileAtMore(y, Protect(FM_RUNTIME_CONFIG), FM_RUNTIME_CONFIG);
    FileAtMore(y + [Protect(FM_RUNTIME_CONFIG)], OpenLog, FM_RUNTIME_CONFIG);
    assert pre + FabricSetup(stock, mode, railPolicy) == y + [Protect(FM_RUNTIME_CONFIG)] + [OpenLog];
  }

  // ---------- The one place where it is started ----------

  function ModeOf(d: Detection): FabricMode {
    if d.mode == Gpu then FABRIC_MODE_FULL else FABRIC_MODE_SHARED
  }

  predicate StartsFabric(w: World) {
    && Detect(w.pci).Ok? && Detect(w.pci).value.nvswitch.Some?
    && (Detect(w.pci).value.nvswitch == Some(Nvl5) ==>
          Infiniband.Detected(w.ib).Ok? && Infiniband.Detected(w.ib).value.Some?)
  }

  function Guid(w: World): Option<string>
    requires StartsFabric(w)
  {
    if Detect(w.pci).value.nvswitch == Some(Nvl5) then Infiniband.Detected(w.ib).value else None
  }

  function Policy(guid: Option<string>): string {
    if guid.Some? then "symmetric" else "greedy"
  }

  /** The subnet manager, where there is a port for it, started and checked. */
  function Subnet(w: World, guid: Option<string>): seq<Action> {
    if guid.Some? then [Spawn(0, Nvlsm, NvlsmArgs(Present(w), guid.value)), Probe(0)] else []
  }

  function FabricStart(guid: Option<string>): Action {
    Spawn(if guid.Some? then 1 else 0, FabricManager, FabricArgs(guid))
  }

  /** The subnet manager if any, the configuration, and then the fabric manager. */
  function Core(w: World, mode: FabricMode, guid: Option<string>): seq<Action> {
    Subnet(w, guid) + FabricSetup(w.stock, mode, Policy(guid)) + [FabricStart(guid)]
  }

  lemma ProbesQuiet(n: nat)
    ensures Quiet(Probes(n))
  {
    ProbesAre(n);
  }

  lemma Nvl4Core(s: State, w: World, mode: FabricMode) returns (post: seq<Action>)
    requires s.children == [] && s.portGuid == None
    ensures Nvl4Plan(s, w, mode).script == [LoadModule(w, "nvidia")] + Core(w, mode, None) + post && Quiet(post)
  {
    ProbesQuiet(1);
    post := [AwaitMarker(FABRIC_READY, 120)] + Probes(1);
    assert |FabricPlan(s, w.stock, mode, "greedy").state.children| == 1;
    var setup := FabricSetup(w.stock, mode, "greedy");
    assert [] + setup == setup;
  }

  lemma BridgeCore(s: State, w: World, mode: FabricMode) returns (post: seq<Action>)
    requires s.children == [] && s.portGuid.Some?
    ensures BridgePlan(s, w, mode).script == Core(w, mode, s.portGuid) + post && Quiet(post)
  {
    var await := [AwaitMarker(FABRIC_READY, 120)];
    ProbesQuiet(2);
    post := await + Probes(2);
    var p := NvlsmPlan(s, Present(w));
    var q := FabricPlan(p.state, w.stock, mode, "symmetric");
    assert |p.state.children| == 1 && |q.state.children| == 2;
    OneProbe();
    var setup, start := FabricSetup(w.stock, mode, "symmetric"), [FabricStart(s.portGuid)];
    assert q.script == setup + start + await;
    assert p.script + Probes(1) == Subnet(w, s.portGuid);
    Regroup4(Subnet(w, s.portGuid), setup, start, await, Probes(2));
  }

  lemma OneProbe()
    ensures Probes(1) == [Probe(0)]
  {
    assert Probes(0) == [];
  }

  lemma Regroup4<T>(a: seq<T>, b: seq<T>, c: seq<T>, d: seq<T>, e: seq<T>)
    ensures a + (b + c + d) + e == a + b + c + (d + e)
  {
  }

  lemma Nvl5Core(s: State, w: World, mode: FabricMode) returns (post: seq<Action>)
    requires s.children == [] && Infiniband.Detected(w.ib).Ok? && Infiniband.Detected(w.ib).value.Some?
    ensures Nvl5Plan(s, w, mode).script
            == [LoadModule(w, "ib_umad"), LoadModule(w, "mlx5_ib")] + Core(w, mode, Infiniband.Detected(w.ib).value)
                + post
    ensures Quiet(post)
  {
    var s' := s.(portGuid := Infiniband.Detected(w.ib).value);
    post := BridgeCore(s', w, mode);
    Associative([LoadModule(w, "ib_umad"), LoadModule(w, "mlx5_ib")], Core(w, mode, s'.portGuid), post);
  }

  lemma ServicesQuiet(s: State, w: World)
    ensures Quiet(GpuServicesPlan(s, w).script)
  {
    var p := PersistencedPlan(s);
    var q := HostenginePlan(p.state);
    var r := ExporterPlan(q.state);
    ProbesQuiet(|r.state.children|);
    assert Quiet(SmiClocks(s.settings)) && Quiet(p.script) && Quiet(q.script) && Quiet(r.script);
  }

  lemma Nvl4Parts(s: State, w: World, mode: FabricMode) returns (pre: seq<Action>, post: seq<Action>)
    requires s.children == [] && s.portGuid == None
    ensures Nvl4Plan(s, w, mode).script == pre + Core(w, mode, None) + post
    ensures Quiet(pre) && Quiet(post)
  {
    pre := [LoadModule(w, "nvidia")];
    post := Nvl4Core(s, w, mode);
  }

  lemma Nvl5Parts(s: State, w: World, mode: FabricMode) returns (pre: seq<Action>, post: seq<Action>)
    requires s.children == [] && Infiniband.Detected(w.ib).Ok? && Infiniband.Detected(w.ib).value.Some?
    ensures Nvl5Plan(s, w, mode).script == pre + Core(w, mode, Infiniband.Detected(w.ib).value) + post
    ensures Quiet(pre) && Quiet(post)
  {
    pre := [LoadModule(w, "ib_umad"), LoadModule(w, "mlx5_ib")];
    post := Nvl5Core(s, w, mode);
  }

  lemma NvSwitchCore(s: State, w: World) returns (pre: seq<Action>, post: seq<Action>)
    requires s.children == [] && s.portGuid == None && StartsFabric(w)
    ensures NvSwitchPlan(s, w, Detect(w.pci).value.nvswitch).script == pre + Core(w, FABRIC_MODE_FULL, Guid(w)) + post
    ensures Quiet(pre) && Quiet(post)
  {
    match Detect(w.pci).value.nvswitch
    case Some(Nvl4) => pre, post := Nvl4Parts(s, w, FABRIC_MODE_FULL);
    case Some(Nvl5) => pre, post := Nvl5Parts(s, w, FABRIC_MODE_FULL);
  }

  lemma GpuCore(s: State, w: World) returns (pre: seq<Action>, post: seq<Action>)
    requires s.children == [] && s.portGuid == None && StartsFabric(w)
    ensures GpuPlan(s, w, Detect(w.pci).value.nvswitch).script == pre + Core(w, FABRIC_MODE_FULL, Guid(w)) + post
    ensures Quiet(pre) && Quiet(post)
  {
    var loads := [LoadModule(w, "nvidia"), LoadModule(w, "nvidia-uvm")];
    var core := Core(w, FABRIC_MODE_FULL, Guid(w));
    var x, y := NvSwitchCore(s, w);
    var p := NvSwitchPlan(s, w, Detect(w.pci).value.nvswitch);
    var q := GpuServicesPlan(p.state, w);
    ServicesQuiet(p.state, w);
    pre, post := loads + x, y + q.script;
    Around(loads, x, core, y, q.script);
  }

  lemma Around<T>(a: seq<T>, x: seq<T>, core: seq<T>, y: seq<T>, b: seq<T>)
    ensures a + (x + core + y) + b == (a + x) + core + (y + b)
  {
  }

  lemma ModeCore(w: World) returns (pre: seq<Action>, post: seq<Action>)
    requires StartsFabric(w)
    ensures ModeScript(w) == pre + Core(w, ModeOf(Detect(w.pci).value), Guid(w)) + post
    ensures Quiet(pre) && Quiet(post)
  {
    var s := ParamsPlan(BORN, w).state;
    ModeMeans(w.pci);
    match Detect(w.pci).value.mode
    case Gpu => pre, post := GpuCore(s, w);
    case ServiceVmNvl4 => pre, post := Nvl4Parts(s, w, FABRIC_MODE_SHARED);
    case ServiceVmNvl5 => pre, post := Nvl5Parts(s, w, FABRIC_MODE_SHARED);
  }

  lemma PortlessQuiet(s: State, w: World, mode: FabricMode)
    requires Infiniband.Detected(w.ib).Err? || Infiniband.Detected(w.ib).value == None
    ensures Quiet(Nvl5Plan(s, w, mode).script)
  {
  }

  lemma GpuQuiet(s: State, w: World)
    requires Detect(w.pci).Ok? && !StartsFabric(w)
    ensures Quiet(GpuPlan(s, w, Detect(w.pci).value.nvswitch).script)
  {
    var nvswitch := Detect(w.pci).value.nvswitch;
    if nvswitch == Some(Nvl5) {
      PortlessQuiet(s, w, FABRIC_MODE_FULL);
    }
    ServicesQuiet(NvSwitchPlan(s, w, nvswitch).state, w);
  }

  lemma ModeQuiet(w: World)
    requires !StartsFabric(w)
    ensures Quiet(ModeScript(w))
  {
    var s := ParamsPlan(BORN, w).state;
    match Detect(w.pci)
    case Err(_) =>
    case Ok(d) =>
      ModeMeans(w.pci);
      match d.mode
      case Cpu =>
      case Gpu => GpuQuiet(s, w);
      case ServiceVmNvl5 => PortlessQuiet(s, w, FABRIC_MODE_SHARED);
  }

  lemma EarlyQuiet(w: World)
    ensures Quiet(Early(w))
  {
    EarlyIsEarly(w);
  }

  /** A whole boot around the start of the fabric manager. */
  lemma BootCore(w: World) returns (pre: seq<Action>, post: seq<Action>)
    requires StartsFabric(w)
    ensures BootPlan(w).script == pre + Core(w, ModeOf(Detect(w.pci).value), Guid(w)) + post
    ensures Quiet(pre) && Quiet(post)
  {
    var x, y := ModeCore(w);
    EarlyQuiet(w);
    QuietTogether(Early(w), x);
    EndQuiet(w, y);
    BootParts(w);
    pre, post := Early(w) + x, y + ([DisableModules] + HandOff(w));
    Whole(BootPlan(w).script, Early(w), ModeScript(w), x, Core(w, ModeOf(Detect(w.pci).value), Guid(w)), y,
          [DisableModules], HandOff(w));
  }

  lemma QuietTogether(a: seq<Action>, b: seq<Action>)
    requires Quiet(a) && Quiet(b)
    ensures Quiet(a + b)
  {
  }

  lemma EndQuiet(w: World, a: seq<Action>)
    requires Quiet(a)
    ensures Quiet(a + ([DisableModules] + HandOff(w)))
  {
  }

  lemma Whole<T>(script: seq<T>, early: seq<T>, mode: seq<T>, x: seq<T>, core: seq<T>, y: seq<T>, lock: seq<T>,
                 end: seq<T>)
    requires script == early + mode + lock + end && mode == x + core + y
    ensures script == (early + x) + core + (y + (lock + end))
  {
  }

  lemma BootQuiet(w: World)
    requires !StartsFabric(w)
    ensures Quiet(BootPlan(w).script)
  {
    ModeQuiet(w);
    EarlyQuiet(w);
    BootParts(w);
  }

  // ---------- At every start ----------

  lemma StartIsAt(pre: seq<Action>, lead: seq<Action>, start: Action, post: seq<Action>, i: nat)
    requires Quiet(pre) && Quiet(post) && (forall a <- lead :: !IsFabricStart(a))
    requires i < |pre + (lead + [start]) + post| && IsFabricStart((pre + (lead + [start]) + post)[i])
    ensures i == |pre| + |lead| && (pre + (lead + [start]) + post)[i] == start
    ensures (pre + (lead + [start]) + post)[..i] == pre + lead
  {
    var script := pre + (lead + [start]) + post;
    forall j | 0 <= j < |script| ensures IsFabricStart(script[j]) ==> j == |pre| + |lead| {
      assert if j < |pre| then script[j] in pre
             else if j < |pre| + |lead| then script[j] in lead
             else j == |pre| + |lead| || script[j] in post;
    }
  }

  lemma StartInRun(trace: seq<Action>, pre: seq<Action>, lead: seq<Action>, start: Action, post: seq<Action>, i: nat)
    requires Quiet(pre) && Quiet(post) && (forall a <- lead :: !IsFabricStart(a))
    requires trace <= pre + (lead + [start]) + post
    requires i < |trace| && IsFabricStart(trace[i])
    ensures trace[i] == start && trace[..i] == pre + lead
  {
    StartIsAt(pre, lead, start, post, i);
  }

  lemma QuietRun(trace: seq<Action>, script: seq<Action>)
    requires Quiet(script) && trace <= script
    ensures Quiet(trace)
  {
  }

  /** In any run, a start of the fabric manager comes right after the configuration and, with a port, right
      after the subnet manager's start and check before that. */
  lemma StartIs(w: World, replies: Replies, i: nat) returns (pre: seq<Action>)
    requires i < |BootRun(w, replies).trace| && IsFabricStart(BootRun(w, replies).trace[i])
    ensures StartsFabric(w) && Quiet(pre)
    ensures var d, guid := Detect(w.pci).value, Guid(w);
            && BootRun(w, replies).trace[..i] == pre + (Subnet(w, guid) + FabricSetup(w.stock, ModeOf(d), Policy(guid)))
            && BootRun(w, replies).trace[i] == FabricStart(guid)
  {
    EveryBootEnds(w, replies);
    MustStart(w, BootRun(w, replies).trace, i);
    pre := StartsInCore(w, BootRun(w, replies).trace, i);
  }

  lemma MustStart(w: World, trace: seq<Action>, i: nat)
    requires trace <= BootPlan(w).script && i < |trace| && IsFabricStart(trace[i])
    ensures StartsFabric(w)
  {
    if !StartsFabric(w) {
      BootQuiet(w);
      QuietRun(trace, BootPlan(w).script);
      QuietAt(trace, i);
    }
  }

  lemma QuietAt(trace: seq<Action>, i: nat)
    requires Quiet(trace) && i < |trace|
    ensures !IsFabricStart(trace[i])
  {
  }

  lemma LeadStartsNone(w: World, mode: FabricMode, guid: Option<string>)
    ensures forall a <- Subnet(w, guid) + FabricSetup(w.stock, mode, Policy(guid)) :: !IsFabricStart(a)
  {
  }

  lemma StartsInCore(w: World, trace: seq<Action>, i: nat) returns (pre: seq<Action>)
    requires StartsFabric(w) && trace <= BootPlan(w).script && i < |trace| && IsFabricStart(trace[i])
    ensures Quiet(pre)
    ensures var d, guid := Detect(w.pci).value, Guid(w);
            && trace[..i] == pre + (Subnet(w, guid) + FabricSetup(w.stock, ModeOf(d), Policy(guid)))
            && trace[i] == FabricStart(guid)
  {
    var post;
    pre, post := BootCore(w);
    var d, guid := Detect(w.pci).value, Guid(w);
    LeadStartsNone(w, ModeOf(d), guid);
    StartInRun(trace, pre, Subnet(w, guid) + FabricSetup(w.stock, ModeOf(d), Policy(guid)), FabricStart(guid), post, i);
  }

  lemma HoldsOne(text: string, key: string, v: string, v': string)
    requires Holds(text, key, v) && Holds(text, key, v')
    ensures v == v'
  {
    assert key + "=" + v in {key + "=" + v'};
    assert (key + "=" + v)[|key| + 1..] == v && (key + "=" + v')[|key| + 1..] == v';
  }

  /** The configuration says FABRIC_MODE=0 exactly in gpu mode and 1 exactly in a service VM, and
      PARTITION_RAIL_POLICY=symmetric exactly for nvl5. */
  predicate Fits(config: string, d: Detection) {
    && (Holds(config, "FABRIC_MODE", "0") <==> d.mode == Gpu)
    && (Holds(config, "FABRIC_MODE", "1") <==> d.mode == ServiceVmNvl4 || d.mode == ServiceVmNvl5)
    && (Holds(config, "PARTITION_RAIL_POLICY", "symmetric") <==> d.nvswitch == Some(Nvl5))
    && (Holds(config, "PARTITION_RAIL_POLICY", "greedy") <==> d.nvswitch == Some(Nvl4))
  }

  /** A key that holds one of two values holds just that one. */
  lemma OneOfTwo(text: string, key: string, value: string, first: string, second: string)
    requires Holds(text, key, value) && first != second && (value == first || value == second)
    ensures Holds(text, key, first) <==> value == first
    ensures Holds(text, key, second) <==> value == second
  {
    if Holds(text, key, first) && Holds(text, key, second) {
      HoldsOne(text, key, first, second);
    }
  }

  lemma ModeFits(text: string, mode: FabricMode)
    requires mode <= 1 && Holds(text, "FABRIC_MODE", Decimal(mode))
    ensures Holds(text, "FABRIC_MODE", "0") <==> mode == 0
    ensures Holds(text, "FABRIC_MODE", "1") <==> mode == 1
  {
    assert Decimal(0) == "0" && Decimal(1) == "1";
    OneOfTwo(text, "FABRIC_MODE", Decimal(mode), "0", "1");
  }

  lemma PolicyFits(text: string, guid: Option<string>)
    requires Holds(text, "PARTITION_RAIL_POLICY", Policy(guid))
    ensures Holds(text, "PARTITION_RAIL_POLICY", "symmetric") <==> guid.Some?
    ensures Holds(text, "PARTITION_RAIL_POLICY", "greedy") <==> guid == None
  {
    OneOfTwo(text, "PARTITION_RAIL_POLICY", Policy(guid), "symmetric", "greedy");
  }

  lemma ConfigFits(stock: string, d: Detection, guid: Option<string>)
    requires d.mode != Cpu && d.nvswitch.Some? && (guid.Some? <==> d.nvswitch == Some(Nvl5))
    ensures Fits(FabricConfig(stock, ModeOf(d), Policy(guid)), d)
  {
    PolicyIsClean(guid);
    FabricConfigReads(stock, ModeOf(d), Policy(guid));
    TextFits(FabricConfig(stock, ModeOf(d), Policy(guid)), d, guid);
  }

  lemma TextFits(text: string, d: Detection, guid: Option<string>)
    requires d.mode != Cpu && d.nvswitch.Some? && (guid.Some? <==> d.nvswitch == Some(Nvl5))
    requires Holds(text, "FABRIC_MODE", Decimal(ModeOf(d))) && Holds(text, "PARTITION_RAIL_POLICY", Policy(guid))
    ensures Fits(text, d)
  {
    ModeFits(text, ModeOf(d));
    PolicyFits(text, guid);
    assert ModeOf(d) == 0 <==> d.mode == Gpu;
    assert d.nvswitch.value.Nvl4? || d.nvswitch.value.Nvl5?;
  }

  lemma PolicyIsClean(guid: Option<string>)
    ensures Clean("PARTITION_RAIL_POLICY" + "=" + Policy(guid))
  {
  }

  /** Whatever the devices and the stock file: whenever the fabric manager is started, its configuration has
      been written, and read line by line it fits the topology. */
  lemma FabricIsConfigured(w: World, replies: Replies, i: nat)
    requires i < |BootRun(w, replies).trace| && IsFabricStart(BootRun(w, replies).trace[i])
    ensures Detect(w.pci).Ok? && Detect(w.pci).value.nvswitch.Some?
    ensures var config := FileAt(BootRun(w, replies).trace[..i], "/run/fabricmanager.cfg");
            && config.Some? && Fits(config.value, Detect(w.pci).value)
            && UpdatesStock(config.value, w.stock, Detect(w.pci).value)
    ensures i >= 2 && BootRun(w, replies).trace[i - 2] == Protect("/run/fabricmanager.cfg")
  {
    var pre := StartIs(w, replies, i);
    var d, guid := Detect(w.pci).value, Guid(w);
    ModeMeans(w.pci);
    ProtectedBefore(BootRun(w, replies).trace, i, pre + Subnet(w, guid), w.stock, ModeOf(d), Policy(guid));
    WrittenBefore(BootRun(w, replies).trace[..i], pre, Subnet(w, guid), w.stock, ModeOf(d), Policy(guid));
    ConfigFits(w.stock, d, guid);
    ConfigUpdatesStock(w.stock, d, guid);
  }

  /** The file is the stock one updated for two keys, which keeps all its other lines. */
  predicate UpdatesStock(config: string, stock: string, d: Detection) {
    var mode := if d.mode == Gpu then "0" else "1";
    var policy := if d.nvswitch == Some(Nvl5) then "symmetric" else "greedy";
    config == UpdateText(stock, [("FABRIC_MODE", mode), ("PARTITION_RAIL_POLICY", policy)])
  }

  lemma ConfigUpdatesStock(stock: string, d: Detection, guid: Option<string>)
    requires guid.Some? <==> d.nvswitch == Some(Nvl5)
    ensures UpdatesStock(FabricConfig(stock, ModeOf(d), Policy(guid)), stock, d)
  {
    assert Decimal(0) == "0" && Decimal(1) == "1";
  }

  lemma ProtectedBefore(trace: seq<Action>, i: nat, pre: seq<Action>, stock: string, mode: FabricMode,
                        railPolicy: string)
    requires i <= |trace| && trace[..i] == pre + FabricSetup(stock, mode, railPolicy)
    ensures i >= 2 && trace[i - 2] == Protect("/run/fabricmanager.cfg")
  {
    assert trace[..i][i - 2] == trace[i - 2];
  }

  lemma WrittenBefore(trace: seq<Action>, pre: seq<Action>, subnet: seq<Action>, stock: string, mode: FabricMode,
                      railPolicy: string)
    requires trace == pre + (subnet + FabricSetup(stock, mode, railPolicy))
    ensures FileAt(trace, FM_RUNTIME_CONFIG) == Some(FabricConfig(stock, mode, railPolicy))
  {
    Associative(pre, subnet, FabricSetup(stock, mode, railPolicy));
    SetupWrites(pre + subnet, stock, mode, railPolicy);
  }

  /** For nvl5 the subnet manager is started and found healthy before the fabric manager is started, and both
      get the port that detection selected. */
  lemma SubnetComesFirst(w: World, replies: Replies, i: nat)
    requires i < |BootRun(w, replies).trace| && IsFabricStart(BootRun(w, replies).trace[i])
    requires Detect(w.pci).Ok? && Detect(w.pci).value.nvswitch == Some(Nvl5)
    ensures exists guid :: Infiniband.Detected(w.ib) == Ok(Some(guid))
              && Precedes(w, BootRun(w, replies).trace, replies, i, guid)
  {
    var pre := StartIs(w, replies, i);
    var guid := Guid(w).value;
    EveryBootEnds(w, replies);
    PrecedesIn(w, BootRun(w, replies).trace, replies, i, guid, pre,
               FabricSetup(w.stock, ModeOf(Detect(w.pci).value), "symmetric"));
  }

  /** The configuration, from the extension if there is one, and the port. */
  predicate StartsSubnet(args: seq<string>, present: bool, guid: string) {
    var config := (if present then "/run/kata-extensions/gpu" else "") + "/usr/share/nvidia/nvlsm/nvlsm.conf";
    args == ["-F", config, "-g", guid, "-f", "stdout"]
  }

  lemma NvlsmStartsSubnet(present: bool, guid: string)
    ensures StartsSubnet(NvlsmArgs(present, guid), present, guid)
  {
    assert "" + NVLSM_CONFIG == NVLSM_CONFIG;
  }

  predicate Precedes(w: World, trace: seq<Action>, replies: Replies, i: nat, guid: string)
    requires i < |trace|
  {
    && trace[i].Spawn? && trace[i].args == ["-c", "/run/fabricmanager.cfg", "-g", guid]
    && exists j, k ::
         && 0 <= j < k < i && IsNvlsmStart(trace[j]) && StartsSubnet(trace[j].args, Present(w), guid)
         && trace[k] == Probe(trace[j].child) && LooksHealthy(replies(k).status)
  }

  lemma PrecedesIn(w: World, trace: seq<Action>, replies: Replies, i: nat, guid: string, pre: seq<Action>,
                   setup: seq<Action>)
    requires i < |trace| && trace[i] == FabricStart(Some(guid))
    requires trace[..i] == pre + (Subnet(w, Some(guid)) + setup)
    requires forall j :: 0 <= j < |trace| - 1 ==> Succeeds(trace[j], replies(j))
    ensures Precedes(w, trace, replies, i, guid)
  {
    var j := |pre|;
    assert trace[..i][j] == trace[j] && trace[..i][j + 1] == trace[j + 1];
    assert trace[j] == Spawn(0, Nvlsm, NvlsmArgs(Present(w), guid)) && trace[j + 1] == Probe(0);
    assert Succeeds(trace[j + 1], replies(j + 1));
    SucceedsExactly(trace[j + 1], replies(j + 1));
    NvlsmStartsSubnet(Present(w), guid);
  }

  /** With third-generation switches no subnet manager is ever started, and the fabric manager gets no port. */
  lemma NoSubnetForNvl4(w: World, replies: Replies)
    requires Detect(w.pci).Ok? && Detect(w.pci).value.nvswitch != Some(Nvl5)
    ensures forall a <- BootRun(w, replies).trace ::
              !IsNvlsmStart(a) && (IsFabricStart(a) ==> a.args == ["-c", "/run/fabricmanager.cfg"])
  {
    EveryBootEnds(w, replies);
    var trace := BootRun(w, replies).trace;
    if StartsFabric(w) {
      var pre, post := BootCore(w);
      SetupQuiet(w.stock, ModeOf(Detect(w.pci).value), "greedy");
      OnlyThisStart(trace, pre, FabricSetup(w.stock, ModeOf(Detect(w.pci).value), "greedy"), FabricStart(None), post);
    } else {
      BootQuiet(w);
      QuietRun(trace, BootPlan(w).script);
    }
  }

  lemma SetupQuiet(stock: string, mode: FabricMode, railPolicy: string)
    ensures Quiet(FabricSetup(stock, mode, railPolicy))
  {
  }

  lemma OnlyThisStart(trace: seq<Action>, pre: seq<Action>, setup: seq<Action>, start: Action, post: seq<Action>)
    requires Quiet(pre) && Quiet(setup) && Quiet(post) && IsFabricStart(start)
    requires trace <= pre + ([] + setup + [start]) + post
    ensures forall a <- trace :: !IsNvlsmStart(a) && (IsFabricStart(a) ==> a == start)
  {
    assert [] + setup == setup;
  }

  /** Whoever has switches to manage reaches the kata-agent only with a fabric manager; nobody else starts one. */
  lemma FabricStartsExactly(w: World, replies: Replies)
    ensures BootRun(w, replies).power == HandedOver ==>
              ((exists a <- BootRun(w, replies).trace :: IsFabricStart(a)) <==>
                 Detect(w.pci).Ok? && Detect(w.pci).value.nvswitch.Some?)
  {
    EveryBootEnds(w, replies);
    var trace := BootRun(w, replies).trace;
    if StartsFabric(w) {
      if BootRun(w, replies).power == HandedOver {
        var pre, post := BootCore(w);
        CoreHasStart(trace, w, ModeOf(Detect(w.pci).value), Guid(w), pre, post);
      }
    } else {
      BootQuiet(w);
      QuietRun(trace, BootPlan(w).script);
      if Detect(w.pci).Ok? && Detect(w.pci).value.nvswitch == Some(Nvl5) {
        NoPortNoBoot(w, replies);
      }
    }
  }

  lemma CoreHasStart(trace: seq<Action>, w: World, mode: FabricMode, guid: Option<string>, pre: seq<Action>,
                     post: seq<Action>)
    requires trace == pre + Core(w, mode, guid) + post
    ensures FabricStart(guid) in trace
  {
    assert FabricStart(guid) in Core(w, mode, guid);
  }

  /** An nvl5 topology without an enabled port that has a GID never reaches the kata-agent. */
  lemma NoPortNoBoot(w: World, replies: Replies)
    requires Detect(w.pci).Ok? && Detect(w.pci).value.nvswitch == Some(Nvl5) && !StartsFabric(w)
    ensures BootRun(w, replies).power == PoweredOff
  {
    EveryBootEnds(w, replies);
    PanicWithoutPort(w);
    BootParts(w);
    assert Panic in Early(w) + ModeScript(w);
    PanicStops(BootRun(w, replies), BootPlan(w).script, replies);
  }

  lemma PanicWithoutPort(w: World)
    requires Detect(w.pci).Ok? && Detect(w.pci).value.nvswitch == Some(Nvl5) && !StartsFabric(w)
    ensures Panic in ModeScript(w)
  {
    var s := ParamsPlan(BORN, w).state;
    ModeMeans(w.pci);
    assert Panic in [LoadModule(w, "ib_umad"), LoadModule(w, "mlx5_ib")] + [Panic];
  }

  lemma PanicStops(h: History, script: seq<Action>, replies: Replies)
    requires Ends(h, script, replies) && Panic in script
    ensures h.power == PoweredOff
  {
    var i :| 0 <= i < |script| && script[i] == Panic;
    assert i < |h.trace| ==> h.trace[i] == Panic && !Succeeds(Panic, replies(i));
  }

  /** A run that starts the fabric manager never switches NVLink off, before or after. */
  lemma NvLinkStaysOnWithFabric(w: World, replies: Replies, i: nat)
    requires i < |BootRun(w, replies).trace| && IsFabricStart(BootRun(w, replies).trace[i])
    ensures forall a <- BootRun(w, replies).trace :: a.Run? && a.program.Modprobe? ==> NVLINK_OFF !in a.args
  {
    FabricIsConfigured(w, replies, i);
    EveryBootEnds(w, replies);
    BootLoadsKeepNvLink(w);
    KeptInRun(w, BootRun(w, replies).trace, BootPlan(w).script);
  }

  lemma KeptInRun(w: World, trace: seq<Action>, script: seq<Action>)
    requires trace <= script && forall a <- script :: KeepsNvLink(w, a)
    ensures forall a <- trace :: KeepsNvLink(w, a)
  {
  }

  lemma BootLoadsKeepNvLink(w: World)
    ensures forall a <- BootPlan(w).script :: KeepsNvLink(w, a)
  {
    BootParts(w);
    EarlyIsEarly(w);
    ModeIsMode(w);
    ThreeParts(w, Early(w), ModeScript(w), [DisableModules], HandOff(w));
  }

  lemma ThreeParts(w: World, a: seq<Action>, b: seq<Action>, c: seq<Action>, d: seq<Action>)
    requires (forall x <- a :: EarlyAction(x)) && (forall x <- b :: ModeAction(w, x))
    requires (forall x <- c :: !x.Run?) && forall x <- d :: !x.Run?
    ensures forall x <- a + b + c + d :: KeepsNvLink(w, x)
  {
  }
}
