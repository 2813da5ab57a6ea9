/** src/nvrc.rs: the state that the boot sequence threads along. */
module Nvrc {
  import opened Text
  import opened Numerals
  import opened System

  type u32 = n: nat | n < U32_LIMIT

  datatype Settings = Settings(srs: Option<string>, lgc: Option<u32>, lmc: Option<u32>, pl: Option<u32>,
                               uvm: Option<bool>, dcgm: Option<bool>)

  const NO_SETTINGS := Settings(None, None, None, None, None, None)

  /** A child is known by its place in the list of tracked daemons. */
  datatype State = State(settings: Settings, portGuid: Option<string>, children: seq<string>)

  class NVRC {
    var nvidiaSmiSrs: Option<string>
    var nvidiaSmiLgc: Option<u32>
    var nvidiaSmiLmc: Option<u32>
    var nvidiaSmiPl: Option<u32>
    var uvmPersistenceMode: Option<bool>
    var dcgmEnabled: Option<bool>
    var portGuid: Option<string>
    var children: seq<string>

    function CurrentSettings(): Settings
      reads this
    {
      Settings(nvidiaSmiSrs, nvidiaSmiLgc, nvidiaSmiLmc, nvidiaSmiPl, uvmPersistenceMode, dcgmEnabled)
    }

    function Now(): State
      reads this
    {
      State(CurrentSettings(), portGuid, children)
    }

    constructor ()
      ensures Now() == State(NO_SETTINGS, None, [])
    {
      nvidiaSmiSrs, nvidiaSmiLgc, nvidiaSmiLmc, nvidiaSmiPl := None, None, None, None;
      uvmPersistenceMode, dcgmEnabled, portGuid, children := None, None, None, [];
    }

    method TrackDaemon(name: string)
      modifies this`children
      ensures Now() == old(Now()).(children := old(children) + [name])
    {
      children := children + [name];
    }

    method HealthChecks(machine: Machine)
      requires machine.Valid()
      modifies machine
      ensures machine.Valid() && machine.asked == old(machine.asked) + Probes(|children|)
      ensures |machine.asked| == |old(machine.asked)| + |children|
      ensures forall i :: 0 <= i < |children| ==> machine.asked[|old(machine.asked)| + i] == Probe(i)
    {
      ProbesExactly(|children|);
      var n := |children|;
      for i := 0 to n
        invariant machine.Valid() && machine.asked == old(machine.asked) + Probes(i)
      {
        machine.Do(Probe(i));
      }
    }
  }

  /** One probe for each of n children. */
  function Probes(n: nat): seq<Action> {
    if n == 0 then [] else Probes(n - 1) + [Probe(n - 1)]
  }

  /** Every child once, in order. */
  lemma {:induction false} ProbesExactly(n: nat)
    ensures |Probes(n)| == n && forall i :: 0 <= i < n ==> Probes(n)[i] == Probe(i)
  {
    if n > 0 {
      ProbesExactly(n - 1);
    }
  }
}
