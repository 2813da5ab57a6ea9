/** What NVRC does to the rest of the system, one action after the other, and what it gets back.
    Every failure panics (src/macros.rs, src/execute.rs), and a panic powers the machine off
    (src/lockdown.rs). */
module System {
  import opened Text

  /** The programs that NVRC starts. */
  datatype Program = Modprobe | Veritysetup | Ldconfig | NvidiaSmi | NvidiaCtk
                   | Persistenced | Hostengine | DcgmExporter | FabricManager | Nvlsm

  datatype Action =
    | Effect(what: string)                                         // a step that only has to succeed
    | Run(program: Program, args: seq<string>)                     // `foreground`
    | Mount(source: string, target: string)
    | CopyTo(path: string, content: string)
    | ReadFile(path: string)
    | WriteFile(path: string, content: string)
    | Protect(path: string)
    | OpenLog                                                      // `open_kmsg`
    | Spawn(child: nat, program: Program, args: seq<string>)       // `background`
    | AwaitMarker(marker: string, timeoutSecs: nat)                // `wait_for_marker`
    | Probe(child: nat)                                            // `try_wait` in `health_checks`
    | DisableModules
    | Fork
    | Exec(variant: Option<string>)                                // the kata-agent
    | Panic

  /** What `try_wait` says of a child. */
  datatype ChildStatus = Alive | WaitFailed | Exited(code: int) | Killed(signal: int)

  datatype Reply = Reply(done: bool, status: ChildStatus)

  /** The reply to the n-th action of a run. */
  type Replies = nat -> Reply

  predicate Unhealthy(status: ChildStatus) {
    status.Killed? || (status.Exited? && status.code != 0)
  }

  predicate Succeeds(a: Action, reply: Reply) {
    match a
    case Panic => false
    case Probe(_) => !Unhealthy(reply.status)
    case _ => reply.done
  }

  /** A run is on until it powers off or hands over to the kata-agent. */
  datatype Power = On | PoweredOff | HandedOver

  datatype History = History(trace: seq<Action>, power: Power)

  const START := History([], On)

  function Step(h: History, a: Action, replies: Replies): History {
    if h.power != On then h
    else
      var power :=
        if !Succeeds(a, replies(|h.trace|)) then PoweredOff else if a.Exec? then HandedOver else On;
      History(h.trace + [a], power)
  }

  function Execute(h: History, script: seq<Action>, replies: Replies): History
    decreases |script|
  {
    if script == [] then h else Execute(Step(h, script[0], replies), script[1..], replies)
  }

  class Machine {
    const replies: Replies
    var history: History
    ghost var asked: seq<Action>    // what the program has asked for so far

    ghost predicate Valid()
      reads this
    {
      history == Execute(START, asked, replies)
    }

    constructor (replies: Replies)
      ensures Valid() && this.replies == replies && asked == []
    {
      this.replies := replies;
      history, asked := START, [];
    }

    /** Nothing happens any more once the machine is off or handed over. */
    method Do(a: Action)
      requires Valid()
      modifies this
      ensures Valid() && asked == old(asked) + [a]
    {
      Then(START, asked, [a], replies);
      Once(history, a, replies);
      if history.power == On {
        var reply := replies(|history.trace|);
        var power := if Succeeds(a, reply) then On else PoweredOff;
        if power == On && a.Exec? {
          power := HandedOver;
        }
        history := History(history.trace + [a], power);
      }
      asked := asked + [a];
    }
  }

  lemma Once(h: History, a: Action, replies: Replies)
    ensures Execute(h, [a], replies) == Step(h, a, replies)
  {
  }

  lemma {:induction false} Then(h: History, a: seq<Action>, b: seq<Action>, replies: Replies)
    ensures Execute(Execute(h, a, replies), b, replies) == Execute(h, a + b, replies)
    decreases |a|
  {
    if a == [] {
      assert a + b == b;
    } else {
      assert (a + b)[1..] == a[1..] + b;
      Then(Step(h, a[0], replies), a[1..], b, replies);
    }
  }

  // ---------- What failing means ----------

  /** A child that has not ended, cannot be asked, or ended with exit code 0. */
  predicate LooksHealthy(status: ChildStatus) {
    status == Alive || status == WaitFailed || status == Exited(0)
  }

  /** A probe fails on a child that ended otherwise, a panic always, anything else when it is not done. */
  lemma SucceedsExactly(a: Action, reply: Reply)
    ensures a.Probe? ==> (Succeeds(a, reply) <==> LooksHealthy(reply.status))
    ensures a.Panic? ==> !Succeeds(a, reply)
    ensures !a.Probe? && !a.Panic? ==> (Succeeds(a, reply) <==> reply.done)
  {
  }

  // ---------- What every run is like ----------

  /** The trace is what was done of the script: all of it unless the machine stopped before, and only the
      last action can have failed or have handed over. */
  lemma {:induction false} RunFollowsScript(h: History, script: seq<Action>, replies: Replies)
    requires h.power == On
    ensures var r := Execute(h, script, replies);
            && h.trace <= r.trace <= h.trace + script
            && (r.power == On ==> r.trace == h.trace + script)
            && (r.power == PoweredOff ==>
                  |h.trace| < |r.trace| && !Succeeds(r.trace[|r.trace| - 1], replies(|r.trace| - 1)))
            && (r.power == HandedOver ==> |h.trace| < |r.trace| && r.trace[|r.trace| - 1].Exec?
                                          && Succeeds(r.trace[|r.trace| - 1], replies(|r.trace| - 1)))
            && (forall i :: |h.trace| <= i < |r.trace| - 1 ==> Succeeds(r.trace[i], replies(i)) && !r.trace[i].Exec?)
            && (r.power == On && script != [] ==>
                  Succeeds(script[|script| - 1], replies(|r.trace| - 1)) && !script[|script| - 1].Exec?)
    decreases |script|
  {
    if script != [] {
      var next := Step(h, script[0], replies);
      assert h.trace + script == next.trace + script[1..];
      if next.power == On {
        RunFollowsScript(next, script[1..], replies);
      } else {
        Stopped(next, script[1..], replies);
      }
    }
  }

  lemma {:induction false} Stopped(h: History, script: seq<Action>, replies: Replies)
    requires h.power != On
    ensures Execute(h, script, replies) == h
    decreases |script|
  {
    if script != [] {
      Stopped(h, script[1..], replies);
    }
  }
}
