/** What holds of every extension mount of a boot. */
module BootMounts {
  import opened Text
  import opened System
  import Extensions
  import Topology
  import opened ExtensionMounts
  import opened Boot
  import opened BootSafety

  /** `open` opens the extension's partitions with its parameters, and `mount` mounts what that provides. */
  predicate OpensAndMounts(w: World, m: Mount, open: Action, mount: Action) {
    var parts := Partitions(w.partitions(m.dev));
    && parts.Some?
    && open == Run(Veritysetup, VerityArgs(EXTENSION_PREFIX + m.name, parts.value.0, parts.value.1, m.verity))
    && mount == System.Mount("/dev/mapper/" + (EXTENSION_PREFIX + m.name), Target(m.name))
  }

  predicate VerifiedAt(w: World, plan: seq<Mount>, script: seq<Action>, i: nat)
    requires i < |script|
  {
    i >= 2 && exists m <- plan :: OpensAndMounts(w, m, script[i - 2], script[i])
  }

  predicate AllVerified(w: World, plan: seq<Mount>, script: seq<Action>) {
    forall i :: 0 <= i < |script| && script[i].Mount? ==> VerifiedAt(w, plan, script, i)
  }

  predicate NoMount(script: seq<Action>) {
    forall a <- script :: !a.Mount?
  }

  lemma WithoutMount(w: World, plan: seq<Mount>, script: seq<Action>)
    requires NoMount(script)
    ensures AllVerified(w, plan, script)
  {
  }

  lemma VerifiedTogether(w: World, plan: seq<Mount>, a: seq<Action>, b: seq<Action>)
    requires AllVerified(w, plan, a) && AllVerified(w, plan, b)
    ensures AllVerified(w, plan, a + b)
  {
    var ab := a + b;
    forall i | 0 <= i < |ab| && ab[i].Mount? ensures VerifiedAt(w, plan, ab, i) {
      if i < |a| {
        assert ab[i] == a[i] && VerifiedAt(w, plan, a, i);
        assert ab[i - 2] == a[i - 2];
      } else {
        assert ab[i] == b[i - |a|] && VerifiedAt(w, plan, b, i - |a|);
        assert ab[i - 2] == b[i - |a| - 2];
      }
    }
  }

  lemma OneVerified(w: World, plan: seq<Mount>, m: Mount)
    requires m in plan
    ensures AllVerified(w, plan, MountOne(w, m))
  {
    if Partitions(w.partitions(m.dev)).Some? {
      var script := MountOne(w, m);
      assert OpensAndMounts(w, m, script[0], script[2]);
      assert VerifiedAt(w, plan, script, 2);
    }
  }

  lemma {:induction false} EachVerified(w: World, plan: seq<Mount>, part: seq<Mount>)
    requires forall m <- part :: m in plan
    ensures AllVerified(w, plan, MountEach(w, part))
    decreases |part|
  {
    if part != [] {
      var n := |part| - 1;
      EachVerified(w, plan, part[..n]);
      OneVerified(w, plan, part[n]);
      VerifiedTogether(w, plan, MountEach(w, part[..n]), MountOne(w, part[n]));
    }
  }

  function PlanOrNone(w: World): seq<Mount> {
    if Planned(w).Some? then Planned(w).value else []
  }

  lemma MountScriptVerified(w: World)
    ensures AllVerified(w, PlanOrNone(w), MountScript(w))
  {
    var plan := PlanOrNone(w);
    var mounts := MountsOf(w, Planned(w));
    if Planned(w).Some? {
      EachVerified(w, plan, plan);
    } else {
      WithoutMount(w, plan, [Panic]);
    }
    WithoutMount(w, plan, [ReadFile("/proc/cmdline")]);
    VerifiedTogether(w, plan, [ReadFile("/proc/cmdline")], mounts);
  }

  lemma SetupMountsNothing(w: World)
    ensures NoMount(EARLY_SETUP) && NoMount(ParamsPlan(BORN, w).script) && NoMount(ExtensionScript(w))
  {
  }

  lemma EarlyVerified(w: World)
    ensures AllVerified(w, PlanOrNone(w), Early(w))
  {
    SetupMountsNothing(w);
    MountScriptVerified(w);
    BesideMounts(w, PlanOrNone(w), EARLY_SETUP, ParamsPlan(BORN, w).script, [Effect("hash /proc/self/exe")],
                 MountScript(w), ExtensionScript(w));
  }

  lemma BesideMounts(w: World, plan: seq<Mount>, a: seq<Action>, b: seq<Action>, c: seq<Action>, mounts: seq<Action>,
                     d: seq<Action>)
    requires AllVerified(w, plan, mounts) && NoMount(a) && NoMount(b) && NoMount(c) && NoMount(d)
    ensures AllVerified(w, plan, a + b + c + mounts + d)
  {
    WithoutMount(w, plan, a + b + c);
    WithoutMount(w, plan, d);
    VerifiedTogether(w, plan, a + b + c, mounts);
    VerifiedTogether(w, plan, a + b + c + mounts, d);
  }

  lemma ModeMountsNothing(w: World)
    ensures NoMount(ModeScript(w)) && NoMount([DisableModules]) && NoMount(HandOff(w))
  {
    ModeIsMode(w);
  }

  lemma BootVerified(w: World)
    ensures AllVerified(w, PlanOrNone(w), BootPlan(w).script)
  {
    BootParts(w);
    EarlyVerified(w);
    ModeMountsNothing(w);
    AroundMounts(w, PlanOrNone(w), Early(w), ModeScript(w), [DisableModules], HandOff(w));
  }

  lemma AroundMounts(w: World, plan: seq<Mount>, a: seq<Action>, b: seq<Action>, c: seq<Action>, d: seq<Action>)
    requires AllVerified(w, plan, a) && NoMount(b) && NoMount(c) && NoMount(d)
    ensures AllVerified(w, plan, a + b + c + d)
  {
    WithoutMount(w, plan, b);
    WithoutMount(w, plan, c);
    WithoutMount(w, plan, d);
    VerifiedTogether(w, plan, a, b);
    VerifiedTogether(w, plan, a + b, c);
    VerifiedTogether(w, plan, a + b + c, d);
  }

  lemma VerifiedInRun(w: World, plan: seq<Mount>, trace: seq<Action>, script: seq<Action>, i: nat)
    requires AllVerified(w, plan, script) && trace <= script && i < |trace| && trace[i].Mount?
    ensures VerifiedAt(w, plan, trace, i)
  {
    assert VerifiedAt(w, plan, script, i);
  }

  lemma MeasuredAt(w: World, plan: seq<Mount>, trace: seq<Action>, replies: Replies, i: nat) returns (m: Mount)
    requires i < |trace| && VerifiedAt(w, plan, trace, i)
    requires forall j :: 0 <= j < |trace| - 1 ==> Succeeds(trace[j], replies(j))
    ensures m in plan && OpensAndMounts(w, m, trace[i - 2], trace[i]) && replies(i - 2).done
  {
    m := WhichMount(w, plan, trace, i);
    OpenSucceeded(trace, replies, i - 2);
  }

  /** In any run, whatever is mounted was opened before by veritysetup, successfully and with the first
      parameters that the command line has for its name; and it is mounted one component below the mount base. */
  lemma MountsAreMeasured(w: World, replies: Replies, i: nat) returns (m: Mount)
    requires i < |BootRun(w, replies).trace| && BootRun(w, replies).trace[i].Mount?
    ensures Planned(w).Some? && m in Planned(w).value
    ensures FirstParam(Extensions.ParseExtensions(w.cmdline.value).value, m.name) == Some(m.verity)
    ensures i >= 2 && OpensAndMounts(w, m, BootRun(w, replies).trace[i - 2], BootRun(w, replies).trace[i])
              && replies(i - 2).done
    ensures OpensPartitions(BootRun(w, replies).trace[i - 2], w.partitions(m.dev))
    ensures Normal(BootRun(w, replies).trace[i].target) == Normal(MOUNT_BASE) + [m.name]
  {
    EveryBootEnds(w, replies);
    BootVerified(w);
    VerifiedInRun(w, PlanOrNone(w), BootRun(w, replies).trace, BootPlan(w).script, i);
    m := MeasuredAt(w, PlanOrNone(w), BootRun(w, replies).trace, replies, i);
    PlannedIs(w, m);
    PartitionsOpened(w, m, BootRun(w, replies).trace[i - 2], BootRun(w, replies).trace[i]);
  }

  /** The data device is the planned device's last partition 1 and the hash device its last partition 2. */
  predicate OpensPartitions(open: Action, dir: Option<seq<Partition>>) {
    && open.Run? && |open.args| == 16 && dir.Some?
    && IsLastPartition(dir.value, "1", open.args[12]) && IsLastPartition(dir.value, "2", open.args[14])
  }

  lemma PartitionsOpened(w: World, m: Mount, open: Action, mount: Action)
    requires OpensAndMounts(w, m, open, mount)
    ensures OpensPartitions(open, w.partitions(m.dev))
  {
    PartitionsAre(w.partitions(m.dev));
  }

  lemma WhichMount(w: World, plan: seq<Mount>, trace: seq<Action>, i: nat) returns (m: Mount)
    requires i < |trace| && VerifiedAt(w, plan, trace, i)
    ensures m in plan && OpensAndMounts(w, m, trace[i - 2], trace[i])
  {
    m :| m in plan && OpensAndMounts(w, m, trace[i - 2], trace[i]);
  }

  lemma OpenSucceeded(trace: seq<Action>, replies: Replies, i: nat)
    requires i < |trace| - 1 && trace[i].Run? && forall j :: 0 <= j < |trace| - 1 ==> Succeeds(trace[j], replies(j))
    ensures replies(i).done
  {
    assert Succeeds(trace[i], replies(i));
  }

  lemma PlannedIs(w: World, m: Mount)
    requires Planned(w).Some? && m in Planned(w).value
    ensures FirstParam(Extensions.ParseExtensions(w.cmdline.value).value, m.name) == Some(m.verity)
    ensures Normal(Target(m.name)) == Normal(MOUNT_BASE) + [m.name]
  {
    var params := Extensions.ParseExtensions(w.cmdline.value).value;
    FailClosed(params, Discover(w.blocks).value);
    TargetsPlaced(w.blocks, params);
  }

  /** Mounts are made in the order of the plan. */
  lemma {:induction false} MountedInOrder(w: World, a: seq<Mount>, b: seq<Mount>)
    ensures MountEach(w, a + b) == MountEach(w, a) + MountEach(w, b)
    decreases |b|
  {
    if b == [] {
      assert a + b == a;
    } else {
      var n := |b| - 1;
      assert (a + b)[..|a + b| - 1] == a + b[..n] && (a + b)[|a + b| - 1] == b[n];
      MountedInOrder(w, a, b[..n]);
      Associative(MountEach(w, a), MountEach(w, b[..n]), MountOne(w, b[n]));
    }
  }

  // ---------- Everything is mounted ----------

  lemma {:induction false} EachMounted(w: World, plan: seq<Mount>, m: Mount)
    requires m in plan && Panic !in MountEach(w, plan)
    ensures exists a <- MountEach(w, plan) :: a.Mount? && a.target == Target(m.name)
    decreases |plan|
  {
    var n := |plan| - 1;
    if m == plan[n] {
      assert Partitions(w.partitions(m.dev)).Some? by {
        assert Panic !in MountOne(w, m);
      }
      assert MountOne(w, m)[2] in MountEach(w, plan);
    } else {
      assert m in plan[..n];
      EachMounted(w, plan[..n], m);
    }
  }

  lemma MountedInBoot(w: World, m: Mount)
    requires Planned(w).Some? && m in Planned(w).value && Panic !in BootPlan(w).script
    ensures exists a <- BootPlan(w).script :: a.Mount? && a.target == Target(m.name)
  {
    BootParts(w);
    assert forall a <- MountEach(w, Planned(w).value) :: a in MountScript(w);
    assert forall a <- MountScript(w) :: a in Early(w);
    assert forall a <- Early(w) :: a in BootPlan(w).script;
    EachMounted(w, Planned(w).value, m);
  }

  lemma UnplannedPanics(w: World)
    requires Planned(w) == None
    ensures Panic in BootPlan(w).script
  {
    BootParts(w);
    assert Panic in MountsOf(w, Planned(w));
    assert Panic in MountScript(w);
    assert Panic in Early(w);
  }

  lemma NoPanicAtHandOver(h: History, script: seq<Action>, replies: Replies)
    requires Ends(h, script, replies) && h.power == HandedOver
    ensures Panic !in script
  {
    forall i | 0 <= i < |script| ensures script[i] != Panic {
      assert h.trace[i] == script[i] && Succeeds(script[i], replies(i));
    }
  }

  /** A boot reaches the kata-agent only when devices and parameters name the same extensions, and then every
      device that was discovered has been mounted. */
  lemma EverythingIsMounted(w: World, replies: Replies)
    requires BootRun(w, replies).power == HandedOver
    ensures Planned(w).Some?
    ensures Names(Extensions.ParseExtensions(w.cmdline.value).value) == Names(Discover(w.blocks).value)
    ensures forall d <- Discover(w.blocks).value ::
              exists a <- BootRun(w, replies).trace :: a.Mount? && a.target == Target(d.0)
  {
    EveryBootEnds(w, replies);
    NoPanicAtHandOver(BootRun(w, replies), BootPlan(w).script, replies);
    if Planned(w) == None {
      UnplannedPanics(w);
    }
    var devices := Discover(w.blocks).value;
    FailClosed(Extensions.ParseExtensions(w.cmdline.value).value, devices);
    forall d <- devices
      ensures exists a <- BootRun(w, replies).trace :: a.Mount? && a.target == Target(d.0)
    {
      var i :| 0 <= i < |devices| && devices[i] == d;
      MountedInBoot(w, Planned(w).value[i]);
    }
  }

  // ---------- Modules from the extension ----------

  lemma {:induction false} ListsExactly(plan: seq<Mount>, name: string)
    ensures Lists(plan, name) <==> exists m <- plan :: m.name == name
  {
    if plan != [] {
      ListsExactly(plan[1..], name);
      assert forall m :: m in plan <==> m == plan[0] || m in plan[1..];
    }
  }

  lemma LoadsComeLater(w: World, i: nat)
    requires i < |BootPlan(w).script| && BootPlan(w).script[i].Run? && BootPlan(w).script[i].program.Modprobe?
    ensures i >= |Early(w)| && BootPlan(w).script[..|Early(w)|] == Early(w)
  {
    BootParts(w);
    EarlyIsEarly(w);
    LaterThan(Early(w), ModeScript(w) + ([DisableModules] + HandOff(w)), i);
    Associative(Early(w), ModeScript(w), [DisableModules] + HandOff(w));
    Associative(Early(w) + ModeScript(w), [DisableModules], HandOff(w));
  }

  lemma LaterThan(early: seq<Action>, later: seq<Action>, i: nat)
    requires i < |early + later| && forall a <- early :: EarlyAction(a)
    ensures (early + later)[..|early|] == early
    ensures (early + later)[i].Run? && (early + later)[i].program.Modprobe? ==> i >= |early|
  {
    assert i < |early| ==> (early + later)[i] in early;
  }

  lemma EarlyMounts(w: World, name: string)
    requires Planned(w).Some? && Lists(Planned(w).value, name) && Panic !in Early(w)
    ensures exists a <- Early(w) :: a.Mount? && a.target == Target(name)
  {
    ListsExactly(Planned(w).value, name);
    var m :| m in Planned(w).value && m.name == name;
    assert forall a <- MountEach(w, Planned(w).value) :: a in MountScript(w);
    assert forall a <- MountScript(w) :: a in Early(w);
    EachMounted(w, Planned(w).value, m);
  }

  lemma EarlyDone(early: seq<Action>, trace: seq<Action>, replies: Replies, i: nat)
    requires |early| <= i < |trace| && trace[..|early|] == early
    requires forall j :: 0 <= j < |trace| - 1 ==> Succeeds(trace[j], replies(j))
    ensures Panic !in early
    ensures forall a <- early :: exists j :: 0 <= j < i && trace[j] == a
  {
    forall j | 0 <= j < |early| ensures early[j] != Panic && trace[j] == early[j] {
      assert trace[..|early|][j] == early[j] && Succeeds(trace[j], replies(j));
    }
  }

  lemma GpuTarget(name: string)
    requires Target(name) == Topology.EXTENSION_ROOT
    ensures name == "gpu"
  {
    assert Target(name)[|MOUNT_BASE| + 1..] == name;
    assert Topology.EXTENSION_ROOT == Target("gpu");
    assert Target("gpu")[|MOUNT_BASE| + 1..] == "gpu";
  }

  /** The gpu extension's firmware and libraries are set up before any module is loaded. */
  lemma ExtensionSetUpFirst(w: World, replies: Replies, i: nat)
    requires i < |BootRun(w, replies).trace| && BootRun(w, replies).trace[i].Run?
    requires BootRun(w, replies).trace[i].program.Modprobe? && GpuMountedBefore(BootRun(w, replies).trace, i)
    ensures Run(Ldconfig, ["-X", "-f", "/run/ld.so.conf", "-C", "/run/ld.so.cache"]) in BootRun(w, replies).trace[..i]
    ensures Effect("bind /etc/ld.so.cache") in BootRun(w, replies).trace[..i]
    ensures w.firmware ==> Effect("bind /lib/firmware/nvidia") in BootRun(w, replies).trace[..i]
  {
    EveryBootEnds(w, replies);
    LoadsComeLater(w, i);
    MountedIsPresent(w, replies, i);
    EarlyIsBegin(Early(w), BootRun(w, replies).trace, BootPlan(w).script, i);
    EarlyHasSetUp(w);
  }

  lemma EarlyIsBegin(early: seq<Action>, trace: seq<Action>, script: seq<Action>, i: nat)
    requires trace <= script && |early| <= i < |trace| && script[..|early|] == early
    ensures forall a <- early :: a in trace[..i]
  {
    assert trace[..i][..|early|] == early;
  }

  lemma EarlyHasSetUp(w: World)
    requires Present(w)
    ensures Run(Ldconfig, ["-X", "-f", "/run/ld.so.conf", "-C", "/run/ld.so.cache"]) in Early(w)
    ensures Effect("bind /etc/ld.so.cache") in Early(w)
    ensures w.firmware ==> Effect("bind /lib/firmware/nvidia") in Early(w)
  {
    assert forall a <- LdcacheScript(w) :: a in ExtensionScript(w);
    assert forall a <- FirmwareScript(w) :: a in ExtensionScript(w);
    assert forall a <- ExtensionScript(w) :: a in Early(w);
  }

  /** In any run, a module is loaded from the gpu extension exactly when it is an NVIDIA module and the extension has
      been mounted before, measured like every other. */
  lemma ModulesFromExtension(w: World, replies: Replies, i: nat, moduleName: string)
    requires i < |BootRun(w, replies).trace| && BootRun(w, replies).trace[i] == LoadModule(w, moduleName)
    requires moduleName != "--dirname"
    ensures "--dirname" in BootRun(w, replies).trace[i].args <==>
              "nvidia" <= moduleName && GpuMountedBefore(BootRun(w, replies).trace, i)
  {
    Topology.DirnameExactly(moduleName, Present(w), w.pci);
    EveryBootEnds(w, replies);
    LoadsComeLater(w, i);
    GpuPresentExactly(w, replies, i);
  }

  predicate GpuMountedBefore(trace: seq<Action>, i: nat)
    requires i <= |trace|
  {
    exists j :: 0 <= j < i && trace[j].Mount? && trace[j].target == Topology.EXTENSION_ROOT
  }

  lemma GpuPresentExactly(w: World, replies: Replies, i: nat)
    requires |Early(w)| <= i < |BootRun(w, replies).trace|
    requires BootPlan(w).script[..|Early(w)|] == Early(w)
    ensures Present(w) <==> GpuMountedBefore(BootRun(w, replies).trace, i)
  {
    EveryBootEnds(w, replies);
    EarlyDone(Early(w), BootRun(w, replies).trace, replies, i);
    if Present(w) {
      PresentIsMounted(w, BootRun(w, replies).trace, i);
    }
    if GpuMountedBefore(BootRun(w, replies).trace, i) {
      MountedIsPresent(w, replies, i);
    }
  }

  lemma PresentIsMounted(w: World, trace: seq<Action>, i: nat)
    requires Present(w) && Panic !in Early(w) && i <= |trace|
    requires forall a <- Early(w) :: exists j :: 0 <= j < i && trace[j] == a
    ensures GpuMountedBefore(trace, i)
  {
    EarlyMounts(w, "gpu");
    GpuRoot();
    MountedInTrace(Early(w), trace, i, Target("gpu"));
  }

  lemma GpuRoot()
    ensures Target("gpu") == Topology.EXTENSION_ROOT
  {
  }

  lemma MountedInTrace(early: seq<Action>, trace: seq<Action>, i: nat, target: string)
    requires i <= |trace| && exists a <- early :: a.Mount? && a.target == target
    requires forall a <- early :: exists j :: 0 <= j < i && trace[j] == a
    ensures exists j :: 0 <= j < i && trace[j].Mount? && trace[j].target == target
  {
  }

  lemma MountedIsPresent(w: World, replies: Replies, i: nat)
    requires i <= |BootRun(w, replies).trace| && GpuMountedBefore(BootRun(w, replies).trace, i)
    ensures Present(w)
  {
    var j :| 0 <= j < i && BootRun(w, replies).trace[j].Mount?
        && BootRun(w, replies).trace[j].target == Topology.EXTENSION_ROOT;
    var m := MountsAreMeasured(w, replies, j);
    GpuTarget(m.name);
    ListsExactly(Planned(w).value, "gpu");
  }
}
