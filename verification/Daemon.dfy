/** src/daemon.rs: starting the background daemons. Each operation is a method proved against its plan. */
module Daemon {
  import opened Text
  import opened Numerals
  import opened System
  import opened Nvrc
  import opened ConfigFile
  import Topology

  /** What an operation asks for, and the state it leaves. */
  datatype Plan = Plan(script: seq<Action>, state: State)

  const FM_RUNTIME_CONFIG := "/run/fabricmanager.cfg"
  const PERSISTENCED_READY := "Local RPC services initialized"
  const FABRIC_READY := "FM starting NvLink Inband"

  const NVLSM_CONFIG := "/usr/share/nvidia/nvlsm/nvlsm.conf"

  type FabricMode = n: nat | n < 0x100

  const FABRIC_MODE_FULL: FabricMode := 0
  const FABRIC_MODE_SHARED: FabricMode := 1

  /** `gpu_extension::path`. */
  function Path(present: bool, path: string): string {
    if present then Topology.EXTENSION_ROOT + path else path
  }

  function PersistencedArgs(uvm: bool): seq<string> {
    if uvm then ["--verbose", "--uvm-persistence-mode"] else ["--verbose"]
  }

  const HOSTENGINE_ARGS := ["--service-account", "nvidia-dcgm", "--home-dir", "/tmp"]
  const EXPORTER_ARGS := ["-k", "-f", "/etc/dcgm-exporter/default-counters.csv"]

  function FabricUpdates(mode: FabricMode, railPolicy: string): seq<Update> {
    [("FABRIC_MODE", Decimal(mode)), ("PARTITION_RAIL_POLICY", railPolicy)]
  }

  function FabricConfig(stock: string, mode: FabricMode, railPolicy: string): string {
    UpdateText(stock, FabricUpdates(mode, railPolicy))
  }

  function FabricArgs(guid: Option<string>): seq<string> {
    ["-c", FM_RUNTIME_CONFIG] + if guid.Some? then ["-g", guid.value] else []
  }

  function NvlsmArgs(present: bool, guid: string): seq<string> {
    ["-F", Path(present, NVLSM_CONFIG), "-g", guid, "-f", "stdout"]
  }

  // ---------- Plans ----------

  function Started(s: State, name: string, program: Program, args: seq<string>): Plan {
    Plan([Spawn(|s.children|, program, args)], s.(children := s.children + [name]))
  }

  function PersistencedPlan(s: State): Plan {
    var uvm := if s.settings.uvm.Some? then s.settings.uvm.value else true;
    var d := Started(s, "nvidia-persistenced", Persistenced, PersistencedArgs(uvm));
    Plan([OpenLog, Effect("create /var/run/nvidia-persistenced")] + d.script
         + [AwaitMarker(PERSISTENCED_READY, 120)], d.state)
  }

  function HostenginePlan(s: State): Plan {
    if s.settings.dcgm != Some(true) then Plan([], s)
    else Started(s, "nv-hostengine", Hostengine, HOSTENGINE_ARGS)
  }

  function ExporterPlan(s: State): Plan {
    if s.settings.dcgm != Some(true) then Plan([], s)
    else Started(s, "dcgm-exporter", DcgmExporter, EXPORTER_ARGS)
  }

  /** What precedes the start of the fabric manager. */
  function FabricSetup(stock: string, mode: FabricMode, railPolicy: string): seq<Action> {
    [CopyTo(FM_RUNTIME_CONFIG, stock), ReadFile(FM_RUNTIME_CONFIG),
     WriteFile(FM_RUNTIME_CONFIG, FabricConfig(stock, mode, railPolicy)), Protect(FM_RUNTIME_CONFIG), OpenLog]
  }

  function FabricPlan(s: State, stock: string, mode: FabricMode, railPolicy: string): Plan {
    var d := Started(s, "nv-fabricmanager", FabricManager, FabricArgs(s.portGuid));
    Plan(FabricSetup(stock, mode, railPolicy) + d.script + [AwaitMarker(FABRIC_READY, 120)], d.state)
  }

  function NvlsmPlan(s: State, present: bool): Plan {
    if s.portGuid == None then Plan([], s) else Started(s, "nvlsm", Nvlsm, NvlsmArgs(present, s.portGuid.value))
  }

  // ---------- The program ----------

  method Background(init: NVRC, machine: Machine, name: string, program: Program, args: seq<string>)
    requires machine.Valid()
    modifies init`children, machine
    ensures machine.Valid()
    ensures Plan(machine.asked, init.Now()) ==
            var p := Started(old(init.Now()), name, program, args); Plan(old(machine.asked) + p.script, p.state)
  {
    machine.Do(Spawn(|init.children|, program, args));
    init.TrackDaemon(name);
  }

  method NvidiaPersistenced(init: NVRC, machine: Machine)
    requires machine.Valid()
    modifies init`children, machine
    ensures machine.Valid()
    ensures Plan(machine.asked, init.Now()) ==
            var p := PersistencedPlan(old(init.Now())); Plan(old(machine.asked) + p.script, p.state)
  {
    machine.Do(OpenLog);
    machine.Do(Effect("create /var/run/nvidia-persistenced"));
    var uvm := if init.uvmPersistenceMode.Some? then init.uvmPersistenceMode.value else true;
    Background(init, machine, "nvidia-persistenced", Persistenced, PersistencedArgs(uvm));
    machine.Do(AwaitMarker(PERSISTENCED_READY, 120));
  }

  method NvHostengine(init: NVRC, machine: Machine)
    requires machine.Valid()
    modifies init`children, machine
    ensures machine.Valid()
    ensures Plan(machine.asked, init.Now()) ==
            var p := HostenginePlan(old(init.Now())); Plan(old(machine.asked) + p.script, p.state)
  {
    if init.dcgmEnabled != Some(true) {
      return;
    }
    Background(init, machine, "nv-hostengine", Hostengine, HOSTENGINE_ARGS);
  }

  method StartDcgmExporter(init: NVRC, machine: Machine)
    requires machine.Valid()
    modifies init`children, machine
    ensures machine.Valid()
    ensures Plan(machine.asked, init.Now()) ==
            var p := ExporterPlan(old(init.Now())); Plan(old(machine.asked) + p.script, p.state)
  {
    if init.dcgmEnabled != Some(true) {
      return;
    }
    Background(init, machine, "dcgm-exporter", DcgmExporter, EXPORTER_ARGS);
  }

  method NvFabricmanager(init: NVRC, machine: Machine, stock: string, mode: FabricMode, railPolicy: string)
    requires machine.Valid()
    modifies init`children, machine
    ensures machine.Valid()
    ensures Plan(machine.asked, init.Now()) ==
            var p := FabricPlan(old(init.Now()), stock, mode, railPolicy); Plan(old(machine.asked) + p.script, p.state)
  {
    PrepareFabricmanager(machine, stock, mode, railPolicy);
    SpawnFabricmanager(init, machine);
    machine.Do(AwaitMarker(FABRIC_READY, 120));
  }

  method PrepareFabricmanager(machine: Machine, stock: string, mode: FabricMode, railPolicy: string)
    requires machine.Valid()
    modifies machine
    ensures machine.Valid()
    ensures machine.asked == old(machine.asked) + FabricSetup(stock, mode, railPolicy)
  {
    machine.Do(CopyTo(FM_RUNTIME_CONFIG, stock));
    ConfigureFabricmanager(machine, stock, mode, railPolicy);
    machine.Do(Protect(FM_RUNTIME_CONFIG));
    machine.Do(OpenLog);
  }

  /** `current` is what the runtime file holds. */
  method ConfigureFabricmanager(machine: Machine, current: string, mode: FabricMode, railPolicy: string)
    requires machine.Valid()
    modifies machine
    ensures machine.Valid()
    ensures machine.asked == old(machine.asked)
            + [ReadFile(FM_RUNTIME_CONFIG), WriteFile(FM_RUNTIME_CONFIG, FabricConfig(current, mode, railPolicy))]
  {
    machine.Do(ReadFile(FM_RUNTIME_CONFIG));
    var updated := UpdateConfigFile(current, FabricUpdates(mode, railPolicy));
    machine.Do(WriteFile(FM_RUNTIME_CONFIG, updated));
  }

  method SpawnFabricmanager(init: NVRC, machine: Machine)
    requires machine.Valid()
    modifies init`children, machine
    ensures machine.Valid()
    ensures Plan(machine.asked, init.Now()) ==
            var p := Started(old(init.Now()), "nv-fabricmanager", FabricManager, FabricArgs(old(init.portGuid)));
            Plan(old(machine.asked) + p.script, p.state)
  {
    var args := ["-c", FM_RUNTIME_CONFIG];
    if init.portGuid.Some? {
      args := args + ["-g"];
      args := args + [init.portGuid.value];
    }
    assert args == FabricArgs(init.portGuid);
    Background(init, machine, "nv-fabricmanager", FabricManager, args);
  }

  method NvNvlsm(init: NVRC, machine: Machine, present: bool)
    requires machine.Valid()
    modifies init`children, machine
    ensures machine.Valid()
    ensures Plan(machine.asked, init.Now()) ==
            var p := NvlsmPlan(old(init.Now()), present); Plan(old(machine.asked) + p.script, p.state)
  {
    if init.portGuid == None {
      return;
    }
    Background(init, machine, "nvlsm", Nvlsm, NvlsmArgs(present, init.portGuid.value));
  }

  // ---------- The configuration that is written ----------

  /** Whatever the stock file says, the runtime file that is written reads as this mode and this policy. */
  lemma FabricConfigReads(stock: string, mode: FabricMode, railPolicy: string)
    requires Clean("PARTITION_RAIL_POLICY" + "=" + railPolicy)
    ensures Holds(FabricConfig(stock, mode, railPolicy), "FABRIC_MODE", Decimal(mode))
    ensures Holds(FabricConfig(stock, mode, railPolicy), "PARTITION_RAIL_POLICY", railPolicy)
  {
    var updates := FabricUpdates(mode, railPolicy);
    assert updates[1..] == [updates[1]] && updates[1..][1..] == [];
    assert "FABRIC_MODE" != "PARTITION_RAIL_POLICY";
    assert '=' !in "FABRIC_MODE" && '=' !in "PARTITION_RAIL_POLICY";
    assert Clean("FABRIC_MODE" + "=" + Decimal(mode)) by {
      DigitsAreClean("FABRIC_MODE" + "=", Decimal(mode));
    }
    UpdateIsRead(stock, updates, "FABRIC_MODE");
    UpdateIsRead(stock, updates, "PARTITION_RAIL_POLICY");
  }

  /** NVRC's one list of updates is idempotent, whatever the file holds. */
  lemma FabricUpdateIsIdempotent(lines: seq<string>, mode: FabricMode, railPolicy: string)
    ensures var updates := FabricUpdates(mode, railPolicy);
            UpdateLines(UpdateLines(lines, updates), updates) == UpdateLines(lines, updates)
  {
    var updates := FabricUpdates(mode, railPolicy);
    assert updates[1..] == [updates[1]] && updates[1..][1..] == [];
    assert '=' !in "FABRIC_MODE" && '=' !in "PARTITION_RAIL_POLICY";
    assert PlainKeys(updates);
    assert "FABRIC_MODE" != "PARTITION_RAIL_POLICY";
    PlainIdempotentExactly(updates);
  }

  lemma DigitsAreClean(prefix: string, digits: string)
    requires '\n' !in prefix && digits != "" && forall c <- digits :: '0' <= c <= '9'
    ensures Clean(prefix + digits)
  {
    assert digits[|digits| - 1] in digits;
  }
}
