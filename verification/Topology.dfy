/** src/mode.rs and src/modprobe.rs: from the PCI devices to an operating mode and to module options. */
module Topology {
  import opened Text
  import opened Bags

  /** The files of one entry of /sys/bus/pci/devices; None is a file that cannot be read.
      A character of `vpd` stands for one byte. */
  datatype PciDevice = PciDevice(vendor: Option<string>, classCode: Option<string>, vpd: Option<string>)

  /** None is a directory that cannot be read. */
  type PciBus = Option<seq<PciDevice>>

  datatype Mode = Cpu | Gpu | ServiceVmNvl4 | ServiceVmNvl5

  datatype NvSwitch = Nvl4 | Nvl5

  datatype Detection = Detection(mode: Mode, nvswitch: Option<NvSwitch>)

  datatype Unexpected = UnexpectedTopology(nvswitches: nat, gpus: nat, swMng: nat)

  function OrEmpty(content: Option<string>): string {
    if content.Some? then content.value else ""
  }

  predicate IsNvswitch(d: PciDevice) {
    Trim(OrEmpty(d.vendor)) == "0x10de" && "0x0680" <= Trim(OrEmpty(d.classCode))
  }

  predicate IsGpu(d: PciDevice) {
    Trim(OrEmpty(d.vendor)) == "0x10de" && "0x03" <= Trim(OrEmpty(d.classCode))
  }

  predicate IsSwMng(d: PciDevice) {
    Trim(OrEmpty(d.vendor)) == "0x15b3" && d.vpd.Some? && Contains(d.vpd.value, "SW_MNG")
  }

  function Count(devices: seq<PciDevice>, p: PciDevice -> bool): (n: nat)
    ensures n <= |devices|
  {
    if devices == [] then 0 else (if p(devices[0]) then 1 else 0) + Count(devices[1..], p)
  }

  function CountOn(bus: PciBus, p: PciDevice -> bool): nat {
    if bus.Some? then Count(bus.value, p) else 0
  }

  function Gpus(bus: PciBus): nat {
    CountOn(bus, IsGpu)
  }

  function Detect(bus: PciBus): Result<Detection, Unexpected> {
    var nvswitches, gpus, swMng := CountOn(bus, IsNvswitch), Gpus(bus), CountOn(bus, IsSwMng);
    match (nvswitches, gpus, swMng)
    case (0, 0, 0) => Ok(Detection(Cpu, None))
    case (0, _, 0) => Ok(Detection(Gpu, None))
    case (4, 8, 0) => Ok(Detection(Gpu, Some(Nvl4)))
    case (4, 0, 0) => Ok(Detection(ServiceVmNvl4, Some(Nvl4)))
    case (0, 8, 4) => Ok(Detection(Gpu, Some(Nvl5)))
    case (0, 0, 4) => Ok(Detection(ServiceVmNvl5, Some(Nvl5)))
    case _ => Err(UnexpectedTopology(nvswitches, gpus, swMng))
  }

  // ---------- Module options ----------

  const EXTENSION_ROOT := "/run/kata-extensions/gpu"

  const NVLINK_OFF := "NVreg_NvLinkDisable=1"

  /** `gpu_extension::modprobe_dirname`. */
  function Dirname(present: bool, moduleName: string): Option<string> {
    if present && "nvidia" <= moduleName then Some(EXTENSION_ROOT) else None
  }

  predicate SingleGpu(moduleName: string, bus: PciBus) {
    moduleName == "nvidia" && Gpus(bus) == 1
  }

  function ModprobeArgs(moduleName: string, dirname: Option<string>, singleGpu: bool): seq<string> {
    (if dirname.Some? then ["--dirname", dirname.value] else [])
    + [moduleName] + (if singleGpu then [NVLINK_OFF] else [])
  }

  method BuildArgs(moduleName: string, dirname: Option<string>, singleGpu: bool) returns (args: seq<string>)
    ensures args == ModprobeArgs(moduleName, dirname, singleGpu)
    ensures dirname == None && !singleGpu ==> args == [moduleName]
    ensures dirname == None && singleGpu ==> args == [moduleName, "NVreg_NvLinkDisable=1"]
    ensures dirname.Some? && !singleGpu ==> args == ["--dirname", dirname.value, moduleName]
    ensures dirname.Some? && singleGpu ==> args == ["--dirname", dirname.value, moduleName, "NVreg_NvLinkDisable=1"]
  {
    args := [];
    if dirname.Some? {
      args := args + ["--dirname"];
      args := args + [dirname.value];
    }
    args := args + [moduleName];
    if singleGpu {
      args := args + [NVLINK_OFF];
    }
  }

  /** The arguments of the `modprobe` that `modprobe::load` runs. */
  function LoadArgs(moduleName: string, present: bool, bus: PciBus): seq<string> {
    ModprobeArgs(moduleName, Dirname(present, moduleName), SingleGpu(moduleName, bus))
  }

  // ---------- What is counted ----------

  predicate Word(s: string) {
    s != "" && NoWhitespace(s)
  }

  lemma PrintedLine(s: string)
    requires Word(s)
    ensures Trim(s + "\n") == s
  {
    assert s[0] in s && s[|s| - 1] in s;
    TrimOf("", s, "\n");
    assert "" + s + "\n" == s + "\n";
  }

  /** By what the kernel prints: NVSwitches and GPUs are NVIDIA's and told apart by their class. */
  lemma KindOfPrinted(vendor: string, classCode: string, vpd: Option<string>)
    requires Word(vendor) && Word(classCode)
    ensures var d := PciDevice(Some(vendor + "\n"), Some(classCode + "\n"), vpd);
            && (IsNvswitch(d) <==> vendor == "0x10de" && "0x0680" <= classCode)
            && (IsGpu(d) <==> vendor == "0x10de" && "0x03" <= classCode)
  {
    PrintedLine(vendor);
    PrintedLine(classCode);
  }

  predicate OccursAt(s: string, part: string, i: int) {
    0 <= i <= |s| - |part| && s[i..i + |part|] == part
  }

  /** A bridge is Mellanox's with the marker anywhere in its vital product data. */
  lemma BridgeOfPrinted(vendor: string, classCode: Option<string>, vpd: Option<string>)
    requires Word(vendor)
    ensures IsSwMng(PciDevice(Some(vendor + "\n"), classCode, vpd)) <==>
              && vendor == "0x15b3" && vpd.Some?
              && exists i :: OccursAt(vpd.value, "SW_MNG", i)
  {
    PrintedLine(vendor);
    if vpd.Some? {
      if Contains(vpd.value, "SW_MNG") {
        var i := ContainsWhere(vpd.value, "SW_MNG");
        assert OccursAt(vpd.value, "SW_MNG", i);
      }
      if i :| OccursAt(vpd.value, "SW_MNG", i) {
        ContainsAt(vpd.value, "SW_MNG", i);
      }
    }
  }

  /** What cannot be read is not counted: a device without a vendor is of no kind, and a bus without a directory is
      that of cpu mode. */
  lemma UnreadableIsNothing(d: PciDevice)
    ensures d.vendor == None ==> !IsNvswitch(d) && !IsGpu(d) && !IsSwMng(d)
    ensures d.classCode == None ==> !IsNvswitch(d) && !IsGpu(d)
    ensures Detect(None) == Ok(Detection(Cpu, None))
  {
    assert Trim("") == "";
  }

  lemma CountOne(d: PciDevice, p: PciDevice -> bool)
    ensures Count([d], p) == (if p(d) then 1 else 0) && Count([], p) == 0
  {
  }

  // ---------- Counting does not see the order ----------

  lemma {:induction false} CountAppend(a: seq<PciDevice>, b: seq<PciDevice>, p: PciDevice -> bool)
    ensures Count(a + b, p) == Count(a, p) + Count(b, p)
  {
    if a == [] {
      assert a + b == b;
    } else {
      assert (a + b)[1..] == a[1..] + b;
      CountAppend(a[1..], b, p);
    }
  }

  lemma {:induction false} CountUnordered(a: seq<PciDevice>, b: seq<PciDevice>, p: PciDevice -> bool)
    requires multiset(a) == multiset(b)
    ensures Count(a, p) == Count(b, p)
  {
    if a == [] {
      EmptyBag(b);
    } else {
      HeadFirst(a);
      var i := Occurrence(b, a[0], a[1..]);
      CountUnordered(a[1..], b[..i] + b[i + 1..], p);
      CountAppend(b[..i], b[i + 1..], p);
      CountAppend(b[..i], [b[i]] + b[i + 1..], p);
      Without(b, i);
    }
  }

  /** The order in which the directory lists the devices does not matter: not to the mode, and not to the
      arguments of any module. */
  lemma DetectUnordered(a: seq<PciDevice>, b: seq<PciDevice>, moduleName: string, present: bool)
    requires multiset(a) == multiset(b)
    ensures Detect(Some(a)) == Detect(Some(b))
    ensures LoadArgs(moduleName, present, Some(a)) == LoadArgs(moduleName, present, Some(b))
  {
    CountUnordered(a, b, IsNvswitch);
    CountUnordered(a, b, IsGpu);
    CountUnordered(a, b, IsSwMng);
  }

  // ---------- No device is counted twice ----------

  lemma OneKind(d: PciDevice)
    ensures !(IsNvswitch(d) && IsGpu(d)) && !(IsNvswitch(d) && IsSwMng(d)) && !(IsGpu(d) && IsSwMng(d))
  {
    PrefixesClash(Trim(OrEmpty(d.classCode)));
    assert "0x10de"[3] != "0x15b3"[3];
  }

  lemma PrefixesClash(classCode: string)
    ensures !("0x0680" <= classCode && "0x03" <= classCode)
  {
    assert "0x0680"[3] != "0x03"[3];
  }

  /** The three counters never count one device twice. */
  lemma {:induction false} CountsAreDisjoint(devices: seq<PciDevice>)
    ensures Count(devices, IsNvswitch) + Count(devices, IsGpu) + Count(devices, IsSwMng) <= |devices|
  {
    if devices != [] {
      OneKind(devices[0]);
      CountsAreDisjoint(devices[1..]);
    }
  }

  // ---------- What a detected mode means ----------

  /** What NVLink is managed through: nothing, four switches, or four bridges; None is anything else. */
  function Fabric(bus: PciBus): Option<Option<NvSwitch>> {
    var nvswitches, swMng := CountOn(bus, IsNvswitch), CountOn(bus, IsSwMng);
    if nvswitches + swMng == 0 then Some(None)
    else if nvswitches + swMng != 4 then None
    else if swMng == 0 then Some(Some(Nvl4))
    else if nvswitches == 0 then Some(Some(Nvl5))
    else None
  }

  /** A topology is accepted exactly when its fabric is one of these and, with switches or bridges, there are no
      GPUs or eight. Detection then reports this fabric; gpu mode means that there are GPUs, and a service VM
      that there is a fabric without any. */
  lemma ModeMeans(bus: PciBus)
    ensures Detect(bus).Ok? <==>
              Fabric(bus).Some? && (Fabric(bus).value.Some? ==> Gpus(bus) == 0 || Gpus(bus) == 8)
    ensures Detect(bus).Ok? ==>
              var d := Detect(bus).value;
              && Some(d.nvswitch) == Fabric(bus)
              && (d.mode == Gpu <==> Gpus(bus) > 0)
              && (d.mode == Cpu <==> Gpus(bus) == 0 && d.nvswitch == None)
              && (d.mode == ServiceVmNvl4 <==> Gpus(bus) == 0 && d.nvswitch == Some(Nvl4))
              && (d.mode == ServiceVmNvl5 <==> Gpus(bus) == 0 && d.nvswitch == Some(Nvl5))
  {
  }

  /** NVLink is switched off for the nvidia module of a single GPU and for nothing else. */
  lemma NvLinkOffExactly(moduleName: string, present: bool, bus: PciBus)
    requires moduleName != NVLINK_OFF
    ensures NVLINK_OFF in LoadArgs(moduleName, present, bus) <==> moduleName == "nvidia" && Gpus(bus) == 1
  {
    var args := LoadArgs(moduleName, present, bus);
    assert "--dirname"[0] != NVLINK_OFF[0] && EXTENSION_ROOT[0] != NVLINK_OFF[0];
    if SingleGpu(moduleName, bus) {
      assert args[|args| - 1] == NVLINK_OFF;
    }
  }

  /** NVIDIA modules come from the extension where there is one, and nothing else does. */
  lemma DirnameExactly(moduleName: string, present: bool, bus: PciBus)
    requires moduleName != "--dirname"
    ensures "--dirname" in LoadArgs(moduleName, present, bus) <==> present && "nvidia" <= moduleName
  {
    var args := LoadArgs(moduleName, present, bus);
    assert "--dirname"[0] != NVLINK_OFF[0] && "--dirname"[0] != EXTENSION_ROOT[0];
    if present && "nvidia" <= moduleName {
      assert args[0] == "--dirname";
    }
  }

  /** Where there are NVSwitches or bridges to manage, no module load switches NVLink off. */
  lemma NvLinkStaysOn(moduleName: string, present: bool, bus: PciBus)
    requires Detect(bus).Ok? && Detect(bus).value.nvswitch.Some? && moduleName != NVLINK_OFF
    ensures NVLINK_OFF !in LoadArgs(moduleName, present, bus)
  {
    NvLinkOffExactly(moduleName, present, bus);
    ModeMeans(bus);
  }
}
