/** What every boot keeps, whatever the hardware, the command line, the commands and the daemons do. */
module BootSafety {
  import opened Text
  import opened System
  import opened Nvrc
  import opened Daemon
  import opened Topology
  import Infiniband
  import opened ExtensionMounts
  import opened Boot

  function BootRun(w: World, replies: Replies): History {
    Execute(START, BootPlan(w).script, replies)
  }

  // ---------- The parts of a boot ----------

  /** Everything before the modes. */
  function Early(w: World): seq<Action> {
    EARLY_SETUP + ParamsPlan(BORN, w).script + [Effect("hash /proc/self/exe")] + MountScript(w) + ExtensionScript(w)
  }

  function ModeScript(w: World): seq<Action> {
    ModePlan(ParamsPlan(BORN, w).state, w).script
  }

  lemma BootParts(w: World)
    ensures BootPlan(w).script == Early(w) + ModeScript(w) + [DisableModules] + HandOff(w)
  {
  }

  /** Neither starts nor checks a daemon, nor loads a module, nor ends the preparations. */
  predicate EarlyAction(a: Action) {
    && !a.Spawn? && !a.Probe? && !a.AwaitMarker? && !a.DisableModules? && !a.Exec?
    && !(a.Run? && a.program.Modprobe?)
  }

  /** A module load passes no option that switches NVLink off, where the topology has NVSwitches. */
  predicate KeepsNvLink(w: World, a: Action) {
    a.Run? && a.program.Modprobe? && Detect(w.pci).Ok? && Detect(w.pci).value.nvswitch.Some? ==> NVLINK_OFF !in a.args
  }

  predicate AwaitsKnown(a: Action) {
    a.AwaitMarker? ==> a.marker == PERSISTENCED_READY || a.marker == FABRIC_READY
  }

  predicate ModeAction(w: World, a: Action) {
    !a.Mount? && !a.DisableModules? && !a.Exec? && KeepsNvLink(w, a) && AwaitsKnown(a)
  }

  lemma {:induction false} MountsAreEarly(w: World, plan: seq<Mount>)
    ensures forall a <- MountEach(w, plan) :: EarlyAction(a)
    decreases |plan|
  {
    if plan != [] {
      MountsAreEarly(w, plan[..|plan| - 1]);
    }
  }

  lemma MountingIsEarly(w: World)
    ensures forall a <- MountScript(w) :: EarlyAction(a)
  {
    if Planned(w).Some? {
      MountsAreEarly(w, Planned(w).value);
    }
  }

  lemma SetupIsEarly(w: World)
    ensures forall a <- EARLY_SETUP :: EarlyAction(a)
    ensures forall a <- ParamsPlan(BORN, w).script :: EarlyAction(a)
    ensures forall a <- ExtensionScript(w) :: EarlyAction(a)
  {
  }

  lemma EarlyIsEarly(w: World)
    ensures forall a <- Early(w) :: EarlyAction(a)
  {
    MountingIsEarly(w);
    SetupIsEarly(w);
    Parts4(EARLY_SETUP + ParamsPlan(BORN, w).script, [Effect("hash /proc/self/exe")], MountScript(w),
           ExtensionScript(w));
  }

  lemma Parts4(a: seq<Action>, b: seq<Action>, c: seq<Action>, d: seq<Action>)
    requires (forall x <- a :: EarlyAction(x)) && (forall x <- b :: EarlyAction(x))
    requires (forall x <- c :: EarlyAction(x)) && (forall x <- d :: EarlyAction(x))
    ensures forall x <- a + b + c + d :: EarlyAction(x)
  {
  }

  lemma {:induction false} ProbesAre(n: nat)
    ensures forall a <- Probes(n) :: a.Probe?
  {
    if n > 0 {
      ProbesAre(n - 1);
    }
  }

  lemma LoadsKeepNvLink(w: World, moduleName: string)
    requires moduleName != NVLINK_OFF
    ensures ModeAction(w, LoadModule(w, moduleName))
  {
    if Detect(w.pci).Ok? && Detect(w.pci).value.nvswitch.Some? {
      NvLinkStaysOn(moduleName, Present(w), w.pci);
    }
  }

  lemma FabricIsMode(s: State, w: World, mode: FabricMode, railPolicy: string)
    ensures forall a <- FabricPlan(s, w.stock, mode, railPolicy).script :: ModeAction(w, a)
  {
  }

  lemma Nvl4IsMode(s: State, w: World, mode: FabricMode)
    ensures forall a <- Nvl4Plan(s, w, mode).script :: ModeAction(w, a)
  {
    FabricIsMode(s, w, mode, "greedy");
    LoadsKeepNvLink(w, "nvidia");
    ProbesAre(|FabricPlan(s, w.stock, mode, "greedy").state.children|);
  }

  lemma BridgeIsMode(s: State, w: World, mode: FabricMode)
    ensures forall a <- BridgePlan(s, w, mode).script :: ModeAction(w, a)
  {
    var p := NvlsmPlan(s, Present(w));
    FabricIsMode(p.state, w, mode, "symmetric");
    ProbesAre(|p.state.children|);
    ProbesAre(|FabricPlan(p.state, w.stock, mode, "symmetric").state.children|);
  }

  lemma Nvl5IsMode(s: State, w: World, mode: FabricMode)
    ensures forall a <- Nvl5Plan(s, w, mode).script :: ModeAction(w, a)
  {
    LoadsKeepNvLink(w, "ib_umad");
    LoadsKeepNvLink(w, "mlx5_ib");
    match Infiniband.Detected(w.ib)
    case Ok(Some(guid)) => BridgeIsMode(s.(portGuid := Some(guid)), w, mode);
    case _ =>
  }

  predicate LoadsNothing(a: Action) {
    !a.Mount? && !a.DisableModules? && !a.Exec? && !(a.Run? && a.program.Modprobe?) && AwaitsKnown(a)
  }

  predicate AllLoadNothing(script: seq<Action>) {
    forall a <- script :: LoadsNothing(a)
  }

  lemma SmiLoadsNothing(s: Settings)
    ensures AllLoadNothing(SmiClocks(s)) && AllLoadNothing(SmiReady(s))
  {
  }

  lemma DaemonsLoadNothing(s: State)
    ensures AllLoadNothing(PersistencedPlan(s).script)
    ensures AllLoadNothing(HostenginePlan(s).script) && AllLoadNothing(ExporterPlan(s).script)
  {
  }

  lemma PartsLoadNothing(a: seq<Action>, b: seq<Action>, c: seq<Action>, d: seq<Action>, e: seq<Action>,
                         f: seq<Action>, g: seq<Action>)
    requires AllLoadNothing(a) && AllLoadNothing(b) && AllLoadNothing(c) && AllLoadNothing(d)
    requires AllLoadNothing(e) && AllLoadNothing(f) && AllLoadNothing(g)
    ensures AllLoadNothing(a + b + c + d + e + f + g)
  {
  }

  lemma ServicesLoadNothing(s: State, w: World)
    ensures AllLoadNothing(GpuServicesPlan(s, w).script)
  {
    var p := PersistencedPlan(s);
    var q := HostenginePlan(p.state);
    var r := ExporterPlan(q.state);
    SmiLoadsNothing(s.settings);
    DaemonsLoadNothing(s);
    DaemonsLoadNothing(p.state);
    DaemonsLoadNothing(q.state);
    ProbesAre(|r.state.children|);
    PartsLoadNothing(p.script, SmiClocks(s.settings), q.script, r.script, [Run(NvidiaCtk, CdiArgs(Present(w)))],
                     SmiReady(s.settings), Probes(|r.state.children|));
  }

  lemma ServicesAreMode(s: State, w: World)
    ensures forall a <- GpuServicesPlan(s, w).script :: ModeAction(w, a)
  {
    ServicesLoadNothing(s, w);
    NoLoadsAreMode(w, GpuServicesPlan(s, w).script);
  }

  lemma NoLoadsAreMode(w: World, script: seq<Action>)
    requires forall a <- script :: LoadsNothing(a)
    ensures forall a <- script :: ModeAction(w, a)
  {
  }

  lemma ModeIsMode(w: World)
    ensures forall a <- ModeScript(w) :: ModeAction(w, a)
  {
    var s := ParamsPlan(BORN, w).state;
    match Detect(w.pci)
    case Err(_) =>
    case Ok(d) =>
      match d.mode
      case Cpu =>
      case Gpu =>
        LoadsKeepNvLink(w, "nvidia");
        LoadsKeepNvLink(w, "nvidia-uvm");
        NvSwitchIsMode(s, w, d.nvswitch);
        ServicesAreMode(NvSwitchPlan(s, w, d.nvswitch).state, w);
      case ServiceVmNvl4 => Nvl4IsMode(s, w, FABRIC_MODE_SHARED);
      case ServiceVmNvl5 => Nvl5IsMode(s, w, FABRIC_MODE_SHARED);
  }

  lemma NvSwitchIsMode(s: State, w: World, nvswitch: Option<NvSwitch>)
    ensures forall a <- NvSwitchPlan(s, w, nvswitch).script :: ModeAction(w, a)
  {
    match nvswitch
    case Some(Nvl4) => Nvl4IsMode(s, w, FABRIC_MODE_FULL);
    case Some(Nvl5) => Nvl5IsMode(s, w, FABRIC_MODE_FULL);
    case None =>
  }

  // ---------- Every run ends, and how ----------

  /** Everything before module loading is disabled. */
  function Before(w: World): seq<Action> {
    Early(w) + ModeScript(w)
  }

  predicate Preparation(a: Action) {
    !a.DisableModules? && !a.Exec?
  }

  lemma BeforePrepares(w: World)
    ensures forall i :: 0 <= i < |Before(w)| ==> Preparation(Before(w)[i])
  {
    EarlyIsEarly(w);
    ModeIsMode(w);
    BothPrepare(w, Early(w), ModeScript(w));
  }

  lemma BothPrepare(w: World, a: seq<Action>, b: seq<Action>)
    requires (forall x <- a :: EarlyAction(x)) && forall x <- b :: ModeAction(w, x)
    ensures forall i :: 0 <= i < |a + b| ==> Preparation((a + b)[i])
  {
    forall i | 0 <= i < |a + b| ensures Preparation((a + b)[i]) {
      assert if i < |a| then (a + b)[i] in a else (a + b)[i] in b;
    }
  }

  /** A script of preparations, then the lock-down, and then a hand-over that ends with the only exec. */
  predicate Shaped(before: seq<Action>, after: seq<Action>) {
    && (forall i :: 0 <= i < |before| ==> Preparation(before[i]))
    && after != [] && (forall i :: 0 <= i < |after| ==> (after[i].Exec? <==> i == |after| - 1))
    && (forall i :: 0 <= i < |after| ==> !after[i].DisableModules? && !after[i].Run? && !after[i].Mount?)
  }

  predicate Ends(h: History, script: seq<Action>, replies: Replies) {
    && h.power != On
    && h.trace != [] && h.trace <= script
    && (forall i :: 0 <= i < |h.trace| - 1 ==> Succeeds(h.trace[i], replies(i)))
    && (h.power == PoweredOff <==> !Succeeds(h.trace[|h.trace| - 1], replies(|h.trace| - 1)))
    && (h.power == HandedOver ==> h.trace == script && h.trace[|h.trace| - 1].Exec?)
  }

  lemma ShapedEnds(before: seq<Action>, after: seq<Action>, replies: Replies)
    requires Shaped(before, after)
    ensures var script := before + [DisableModules] + after; Ends(Execute(START, script, replies), script, replies)
  {
    ExecIsLast(before, after);
    ScriptEnds(before + [DisableModules] + after, replies);
  }

  lemma ExecIsLast(before: seq<Action>, after: seq<Action>)
    requires Shaped(before, after)
    ensures var script := before + [DisableModules] + after;
            forall i :: 0 <= i < |script| ==> (script[i].Exec? <==> i == |script| - 1)
  {
    var script := before + [DisableModules] + after;
    forall i | 0 <= i < |script| ensures script[i].Exec? <==> i == |script| - 1 {
      assert i < |before| ==> script[i] == before[i];
      assert i > |before| ==> script[i] == after[i - |before| - 1];
    }
  }

  lemma ScriptEnds(script: seq<Action>, replies: Replies)
    requires script != [] && forall i :: 0 <= i < |script| ==> (script[i].Exec? <==> i == |script| - 1)
    ensures Ends(Execute(START, script, replies), script, replies)
  {
    RunFollowsScript(START, script, replies);
    assert [] + script == script;
  }

  lemma ShapedLocksDown(before: seq<Action>, after: seq<Action>, h: History, replies: Replies)
    requires Shaped(before, after) && Ends(h, before + [DisableModules] + after, replies)
    ensures forall i, j :: 0 <= i < j < |h.trace| && h.trace[i].DisableModules? ==>
              !h.trace[j].Run? && !h.trace[j].Mount?
    ensures h.power == HandedOver ==> exists i :: 0 <= i < |h.trace| && h.trace[i].DisableModules? && replies(i).done
  {
    var script := before + [DisableModules] + after;
    forall j | 0 <= j < |script|
      ensures j < |before| ==> !script[j].DisableModules?
      ensures j > |before| ==> !script[j].Run? && !script[j].Mount?
    {
      assert j < |before| ==> script[j] == before[j];
      assert j > |before| ==> script[j] == after[j - |before| - 1];
    }
    assert script[|before|] == DisableModules;
    if h.power == HandedOver {
      assert Succeeds(h.trace[|before|], replies(|before|));
    }
  }

  lemma BootIsShaped(w: World)
    ensures Shaped(Before(w), HandOff(w)) && BootPlan(w).script == Before(w) + [DisableModules] + HandOff(w)
  {
    BootParts(w);
    BeforePrepares(w);
  }

  /** Every boot ends powered off or at the kata-agent. At the kata-agent the whole plan has been carried out and
      each of its actions succeeded; powered off, the last action failed. */
  lemma EveryBootEnds(w: World, replies: Replies)
    ensures Ends(BootRun(w, replies), BootPlan(w).script, replies)
  {
    BootIsShaped(w);
    ShapedEnds(Before(w), HandOff(w), replies);
  }

  /** No run loads a module, opens an extension or mounts one after module loading was disabled, and none
      hands over without having disabled it. */
  lemma NothingLoadsAfterLockdown(w: World, replies: Replies)
    ensures var h := BootRun(w, replies);
            && (forall i, j :: 0 <= i < j < |h.trace| && h.trace[i].DisableModules? ==>
                  !h.trace[j].Run? && !h.trace[j].Mount?)
            && (h.power == HandedOver ==>
                  exists i :: 0 <= i < |h.trace| && h.trace[i].DisableModules? && replies(i).done)
  {
    BootIsShaped(w);
    EveryBootEnds(w, replies);
    ShapedLocksDown(Before(w), HandOff(w), BootRun(w, replies), replies);
  }

  // ---------- Every daemon is checked ----------

  /** How many daemons were started, which of them are not yet checked, and whether they were numbered in
      order. */
  datatype Tally = Tally(next: nat, open: set<nat>, inOrder: bool)

  function Count1(t: Tally, a: Action): Tally {
    match a
    case Spawn(c, _, _) => Tally(t.next + 1, t.open + {c}, t.inOrder && c == t.next)
    case Probe(c) => t.(open := t.open - {c})
    case _ => t
  }

  function CountAll(t: Tally, script: seq<Action>): Tally
    decreases |script|
  {
    if script == [] then t else CountAll(Count1(t, script[0]), script[1..])
  }

  lemma {:induction false} CountAllAppend(t: Tally, a: seq<Action>, b: seq<Action>)
    ensures CountAll(t, a + b) == CountAll(CountAll(t, a), b)
    decreases |a|
  {
    if a == [] {
      assert a + b == b;
    } else {
      assert (a + b)[1..] == a[1..] + b;
      CountAllAppend(Count1(t, a[0]), a[1..], b);
    }
  }

  predicate Silent(a: Action) {
    !a.Spawn? && !a.Probe?
  }

  lemma {:induction false} SilentCount(t: Tally, script: seq<Action>)
    requires forall a <- script :: Silent(a)
    ensures CountAll(t, script) == t
    decreases |script|
  {
    if script != [] {
      assert script[0] in script;
      SilentCount(t, script[1..]);
    }
  }

  lemma {:induction false} ProbesCount(t: Tally, n: nat)
    ensures CountAll(t, Probes(n)) == t.(open := set c <- t.open | c >= n)
  {
    if n > 0 {
      ProbesCount(t, n - 1);
      CountAllAppend(t, Probes(n - 1), [Probe(n - 1)]);
      CountOne(CountAll(t, Probes(n - 1)), Probe(n - 1));
    } else {
      assert t.open == set c <- t.open | c >= 0;
    }
  }

  lemma CountOne(t: Tally, a: Action)
    ensures CountAll(t, [a]) == Count1(t, a)
  {
  }

  /** The tally agrees with the list of tracked daemons. */
  predicate Agrees(t: Tally, s: State) {
    t.inOrder && t.next == |s.children| && forall c <- t.open :: c < t.next
  }

  lemma ChecksClose(t: Tally, s: State)
    requires Agrees(t, s)
    ensures CountAll(t, Probes(|s.children|)) == Tally(t.next, {}, true)
  {
    ProbesCount(t, |s.children|);
  }

  /** A script that starts at most one daemon: silent actions around one start. */
  lemma StartCounts(t: Tally, s: State, pre: seq<Action>, name: string, program: Program, args: seq<string>,
                    post: seq<Action>)
    requires Agrees(t, s)
    requires (forall a <- pre :: Silent(a)) && forall a <- post :: Silent(a)
    ensures var p := Started(s, name, program, args);
            Agrees(CountAll(t, pre + p.script + post), p.state)
  {
    var p := Started(s, name, program, args);
    CountAllAppend(t, pre + p.script, post);
    CountAllAppend(t, pre, p.script);
    SilentCount(t, pre);
    CountOne(t, p.script[0]);
    SilentCount(CountAll(t, pre + p.script), post);
  }

  lemma FabricCounts(t: Tally, s: State, stock: string, mode: FabricMode, railPolicy: string)
    requires Agrees(t, s)
    ensures var p := FabricPlan(s, stock, mode, railPolicy); Agrees(CountAll(t, p.script), p.state)
  {
    StartCounts(t, s, FabricSetup(stock, mode, railPolicy), "nv-fabricmanager", FabricManager, FabricArgs(s.portGuid),
                [AwaitMarker(FABRIC_READY, 120)]);
  }

  lemma Nvl4Counts(t: Tally, s: State, w: World, mode: FabricMode)
    requires Agrees(t, s)
    ensures var p := Nvl4Plan(s, w, mode);
            Agrees(CountAll(t, p.script), p.state) && CountAll(t, p.script).open == {}
  {
    var load := [LoadModule(w, "nvidia")];
    var p := FabricPlan(s, w.stock, mode, "greedy");
    CountAllAppend(t, load + p.script, Probes(|p.state.children|));
    CountAllAppend(t, load, p.script);
    SilentCount(t, load);
    FabricCounts(t, s, w.stock, mode, "greedy");
    ChecksClose(CountAll(t, p.script), p.state);
  }

  lemma NvlsmCounts(t: Tally, s: State, present: bool)
    requires Agrees(t, s)
    ensures var p := NvlsmPlan(s, present); Agrees(CountAll(t, p.script), p.state)
  {
    if s.portGuid.Some? {
      CountOne(t, NvlsmPlan(s, present).script[0]);
    }
  }

  lemma BridgeCounts(t: Tally, s: State, w: World, mode: FabricMode)
    requires Agrees(t, s)
    ensures var p := BridgePlan(s, w, mode);
            Agrees(CountAll(t, p.script), p.state) && CountAll(t, p.script).open == {}
  {
    var p := NvlsmPlan(s, Present(w));
    var q := FabricPlan(p.state, w.stock, mode, "symmetric");
    var checks := Probes(|p.state.children|);
    CountAllAppend(t, p.script + checks + q.script, Probes(|q.state.children|));
    CountAllAppend(t, p.script + checks, q.script);
    CountAllAppend(t, p.script, checks);
    NvlsmCounts(t, s, Present(w));
    ChecksClose(CountAll(t, p.script), p.state);
    var u := CountAll(t, p.script + checks);
    FabricCounts(u, p.state, w.stock, mode, "symmetric");
    ChecksClose(CountAll(u, q.script), q.state);
  }

  lemma Nvl5Counts(t: Tally, s: State, w: World, mode: FabricMode)
    requires Agrees(t, s) && t.open == {}
    ensures var p := Nvl5Plan(s, w, mode);
            Agrees(CountAll(t, p.script), p.state) && CountAll(t, p.script).open == {}
  {
    var loads := [LoadModule(w, "ib_umad"), LoadModule(w, "mlx5_ib")];
    SilentCount(t, loads);
    match Infiniband.Detected(w.ib)
    case Ok(Some(guid)) =>
      var s' := s.(portGuid := Some(guid));
      BridgeCounts(t, s', w, mode);
      CountAllAppend(t, loads, BridgePlan(s', w, mode).script);
    case _ =>
      SilentCount(t, loads + [Panic]);
  }

  lemma NvSwitchCounts(t: Tally, s: State, w: World, nvswitch: Option<NvSwitch>)
    requires Agrees(t, s) && t.open == {}
    ensures var p := NvSwitchPlan(s, w, nvswitch);
            Agrees(CountAll(t, p.script), p.state) && CountAll(t, p.script).open == {}
  {
    match nvswitch
    case Some(Nvl4) => Nvl4Counts(t, s, w, FABRIC_MODE_FULL);
    case Some(Nvl5) => Nvl5Counts(t, s, w, FABRIC_MODE_FULL);
    case None =>
  }

  lemma PersistencedCounts(t: Tally, s: State)
    requires Agrees(t, s)
    ensures var p := PersistencedPlan(s); Agrees(CountAll(t, p.script), p.state)
  {
    var uvm := if s.settings.uvm.Some? then s.settings.uvm.value else true;
    StartCounts(t, s, [OpenLog, Effect("create /var/run/nvidia-persistenced")], "nvidia-persistenced", Persistenced,
                PersistencedArgs(uvm), [AwaitMarker(PERSISTENCED_READY, 120)]);
  }

  lemma DcgmCounts(t: Tally, s: State)
    requires Agrees(t, s)
    ensures var p := HostenginePlan(s); Agrees(CountAll(t, p.script), p.state)
    ensures var p := ExporterPlan(s); Agrees(CountAll(t, p.script), p.state)
  {
    if s.settings.dcgm == Some(true) {
      CountOne(t, HostenginePlan(s).script[0]);
      CountOne(t, ExporterPlan(s).script[0]);
    }
  }

  lemma ThenSilent(t: Tally, script: seq<Action>, more: seq<Action>)
    requires forall a <- more :: Silent(a)
    ensures CountAll(t, script + more) == CountAll(t, script)
  {
    CountAllAppend(t, script, more);
    SilentCount(CountAll(t, script), more);
  }

  lemma ServicesCount(t: Tally, s: State, w: World)
    requires Agrees(t, s)
    ensures CountAll(t, GpuServicesPlan(s, w).script).open == {} && CountAll(t, GpuServicesPlan(s, w).script).inOrder
  {
    var p := PersistencedPlan(s);
    var q := HostenginePlan(p.state);
    var r := ExporterPlan(q.state);
    PersistencedCounts(t, s);
    var done := p.script;
    var u := CountAll(t, done);
    ThenSilent(t, done, SmiClocks(s.settings));
    done := done + SmiClocks(s.settings);
    DcgmCounts(u, p.state);
    CountAllAppend(t, done, q.script);
    done := done + q.script;
    u := CountAll(u, q.script);
    DcgmCounts(u, q.state);
    CountAllAppend(t, done, r.script);
    done := done + r.script;
    u := CountAll(u, r.script);
    ThenSilent(t, done, [Run(NvidiaCtk, CdiArgs(Present(w)))]);
    done := done + [Run(NvidiaCtk, CdiArgs(Present(w)))];
    ThenSilent(t, done, SmiReady(s.settings));
    done := done + SmiReady(s.settings);
    CountAllAppend(t, done, Probes(|r.state.children|));
    ChecksClose(u, r.state);
  }

  lemma GpuCounts(t: Tally, s: State, w: World, nvswitch: Option<NvSwitch>)
    requires Agrees(t, s) && t.open == {}
    ensures CountAll(t, GpuPlan(s, w, nvswitch).script).open == {}
              && CountAll(t, GpuPlan(s, w, nvswitch).script).inOrder
  {
    var loads := [LoadModule(w, "nvidia"), LoadModule(w, "nvidia-uvm")];
    var p := NvSwitchPlan(s, w, nvswitch);
    var q := GpuServicesPlan(p.state, w);
    CountAllAppend(t, loads + p.script, q.script);
    CountAllAppend(t, loads, p.script);
    SilentCount(t, loads);
    NvSwitchCounts(t, s, w, nvswitch);
    ServicesCount(CountAll(t, p.script), p.state, w);
  }

  lemma BeforeCounts(w: World)
    ensures var t := CountAll(Tally(0, {}, true), Before(w)); t.open == {} && t.inOrder
  {
    var t := Tally(0, {}, true);
    EarlyIsEarly(w);
    SilentCount(t, Early(w));
    CountAllAppend(t, Early(w), ModeScript(w));
    ModeCounts(t, ParamsPlan(BORN, w).state, w);
  }

  /** Over a whole boot, every daemon that is started is checked later, and all have their own number. */
  lemma BootCounts(w: World)
    ensures var t := CountAll(Tally(0, {}, true), BootPlan(w).script); t.open == {} && t.inOrder
  {
    var t := Tally(0, {}, true);
    BootParts(w);
    BeforeCounts(w);
    ThenSilent(t, Before(w), [DisableModules]);
    ThenSilent(t, Before(w) + [DisableModules], HandOff(w));
  }

  lemma ModeCounts(t: Tally, s: State, w: World)
    requires Agrees(t, s) && t.open == {}
    ensures CountAll(t, ModePlan(s, w).script).open == {} && CountAll(t, ModePlan(s, w).script).inOrder
  {
    match Detect(w.pci)
    case Err(_) => CountOne(t, Panic);
    case Ok(d) =>
      match d.mode
      case Cpu =>
      case Gpu => GpuCounts(t, s, w, d.nvswitch);
      case ServiceVmNvl4 => Nvl4Counts(t, s, w, FABRIC_MODE_SHARED);
      case ServiceVmNvl5 => Nvl5Counts(t, s, w, FABRIC_MODE_SHARED);
  }

  lemma {:induction false} StaysOpen(t: Tally, script: seq<Action>, c: nat)
    requires c in t.open && Probe(c) !in script
    ensures c in CountAll(t, script).open
    decreases |script|
  {
    if script != [] {
      assert script[0] in script;
      StaysOpen(Count1(t, script[0]), script[1..], c);
    }
  }

  lemma {:induction false} OutOfOrderStays(t: Tally, script: seq<Action>)
    requires CountAll(t, script).inOrder
    ensures t.inOrder && t.next <= CountAll(t, script).next
    decreases |script|
  {
    if script != [] {
      OutOfOrderStays(Count1(t, script[0]), script[1..]);
    }
  }

  lemma CheckedLater(t: Tally, script: seq<Action>, i: nat)
    requires i < |script| && script[i].Spawn? && CountAll(t, script).open == {}
    ensures exists j :: i < j < |script| && script[j] == Probe(script[i].child)
  {
    var before, after := script[..i], script[i + 1..];
    assert script == before + ([script[i]] + after);
    CountAllAppend(t, before, [script[i]] + after);
    CountAllAppend(CountAll(t, before), [script[i]], after);
    var u := CountAll(t, before);
    CountOne(u, script[i]);
    if Probe(script[i].child) !in after {
      StaysOpen(Count1(u, script[i]), after, script[i].child);
    }
    var k :| 0 <= k < |after| && after[k] == Probe(script[i].child);
    assert script[i + 1 + k] == after[k];
  }

  lemma NumberedApart(t: Tally, script: seq<Action>, i: nat, k: nat)
    requires i < k < |script| && script[i].Spawn? && script[k].Spawn? && CountAll(t, script).inOrder
    ensures script[i].child < script[k].child
  {
    var a, b, c := script[..i], script[i + 1..k], script[k + 1..];
    assert script == a + ([script[i]] + (b + ([script[k]] + c)));
    var u := CountAll(t, a);
    CountAllAppend(t, a, [script[i]] + (b + ([script[k]] + c)));
    CountAllAppend(u, [script[i]], b + ([script[k]] + c));
    CountOne(u, script[i]);
    var v := Count1(u, script[i]);
    CountAllAppend(v, b, [script[k]] + c);
    var x := CountAll(v, b);
    CountAllAppend(x, [script[k]], c);
    CountOne(x, script[k]);
    OutOfOrderStays(Count1(x, script[k]), c);
    OutOfOrderStays(v, b);
  }

  /** When the kata-agent takes over, every daemon was checked after it was started, daemons have different
      numbers, and no check saw a daemon that had failed. */
  lemma DaemonsAreChecked(w: World, replies: Replies)
    requires BootRun(w, replies).power == HandedOver
    ensures var trace := BootRun(w, replies).trace;
            && (forall i :: 0 <= i < |trace| && trace[i].Spawn? ==>
                  exists j :: i < j < |trace| && trace[j] == Probe(trace[i].child))
            && (forall i, k :: 0 <= i < k < |trace| && trace[i].Spawn? && trace[k].Spawn? ==>
                  trace[i].child != trace[k].child)
            && (forall j :: 0 <= j < |trace| && trace[j].Probe? ==> LooksHealthy(replies(j).status))
  {
    EveryBootEnds(w, replies);
    BootCounts(w);
    ChecksAreMade(BootRun(w, replies), replies);
  }

  lemma ChecksAreMade(h: History, replies: Replies)
    requires CountAll(Tally(0, {}, true), h.trace).open == {} && CountAll(Tally(0, {}, true), h.trace).inOrder
    requires Ends(h, h.trace, replies) && h.power == HandedOver
    ensures forall i :: 0 <= i < |h.trace| && h.trace[i].Spawn? ==>
              exists j :: i < j < |h.trace| && h.trace[j] == Probe(h.trace[i].child)
    ensures forall i, k :: 0 <= i < k < |h.trace| && h.trace[i].Spawn? && h.trace[k].Spawn? ==>
              h.trace[i].child != h.trace[k].child
    ensures forall j :: 0 <= j < |h.trace| && h.trace[j].Probe? ==> LooksHealthy(replies(j).status)
  {
    var trace := h.trace;
    forall i | 0 <= i < |trace| && trace[i].Spawn?
      ensures exists j :: i < j < |trace| && trace[j] == Probe(trace[i].child)
    {
      CheckedLater(Tally(0, {}, true), trace, i);
    }
    forall i, k | 0 <= i < k < |trace| && trace[i].Spawn? && trace[k].Spawn?
      ensures trace[i].child != trace[k].child
    {
      NumberedApart(Tally(0, {}, true), trace, i, k);
    }
    forall j | 0 <= j < |trace| && trace[j].Probe?
      ensures LooksHealthy(replies(j).status)
    {
      assert Succeeds(trace[j], replies(j));
      SucceedsExactly(trace[j], replies(j));
    }
  }

  // ---------- What a failure does ----------

  predicate Fails(a: Action, reply: Reply) {
    if a.Probe? then !LooksHealthy(reply.status) else a.Panic? || !reply.done
  }

  /** In any run, a probe that finds a child ended otherwise than with exit code 0, a panic, or anything else that is
      not done is the last action and powers the machine off; and nothing else does. */
  lemma FailureEndsRun(w: World, replies: Replies)
    ensures var h := BootRun(w, replies);
            && (forall i :: 0 <= i < |h.trace| && Fails(h.trace[i], replies(i)) ==>
                  i == |h.trace| - 1 && h.power == PoweredOff)
            && (h.power == PoweredOff ==> h.trace != [] && Fails(h.trace[|h.trace| - 1], replies(|h.trace| - 1)))
  {
    EveryBootEnds(w, replies);
    FailureEnds(BootRun(w, replies), BootPlan(w).script, replies);
  }

  lemma FailureEnds(h: History, script: seq<Action>, replies: Replies)
    requires Ends(h, script, replies)
    ensures forall i :: 0 <= i < |h.trace| && Fails(h.trace[i], replies(i)) ==>
              i == |h.trace| - 1 && h.power == PoweredOff
    ensures h.power == PoweredOff ==> h.trace != [] && Fails(h.trace[|h.trace| - 1], replies(|h.trace| - 1))
  {
    forall i | 0 <= i < |h.trace| ensures Fails(h.trace[i], replies(i)) <==> !Succeeds(h.trace[i], replies(i)) {
      SucceedsExactly(h.trace[i], replies(i));
    }
  }
}
