/** The waits of a boot, answered by the relay. */
module BootReadiness {
  import opened Text
  import opened System
  import Syslog
  import Kmsg
  import opened Nvrc
  import opened Daemon
  import opened Topology
  import opened Boot
  import opened BootSafety
  import opened BootSettings

  /** What the relay went through before a wait began, and what happens during the wait. */
  datatype Relay = Relay(past: seq<Syslog.Event>, start: nat, schedule: seq<Kmsg.Pass>)

  const EMPTY_LOG := Syslog.Log([], "")

  /** The wait, which reads the log from its beginning. */
  function WaitOn(r: Relay, marker: string, timeoutSecs: nat): Kmsg.Wait {
    Kmsg.Follow(Syslog.After(EMPTY_LOG, r.past), Kmsg.Begin(0, r.start), marker, Kmsg.Deadline(r.start, timeoutSecs),
                r.schedule)
  }

  function SentDuring(r: Relay): seq<Syslog.Datagram> {
    Syslog.Sent(Kmsg.Events(r.schedule))
  }

  /** A wait succeeds just when it ends ready, in a relay that never cuts a record in two. */
  ghost predicate RelayAnswersOne(a: Action, reply: Reply, r: Relay) {
    a.AwaitMarker? ==>
      && Syslog.HarmlessEvents(r.past) && Kmsg.HarmlessPasses(r.schedule)
      && (reply.done <==> WaitOn(r, a.marker, a.timeoutSecs).outcome == Kmsg.Ready)
  }

  ghost predicate RelayAnswers(trace: seq<Action>, replies: Replies, relays: nat -> Relay) {
    forall i :: 0 <= i < |trace| ==> RelayAnswersOne(trace[i], replies(i), relays(i))
  }

  predicate Carries(d: Syslog.Datagram, marker: string) {
    Contains(Syslog.Receive(d), marker)
  }

  lemma Made(past: seq<Syslog.Event>) returns (kept: seq<Syslog.Datagram>)
    requires Syslog.HarmlessEvents(past)
    ensures Syslog.Holding(Syslog.After(EMPTY_LOG, past), kept, Syslog.Sent(past))
  {
    kept := Syslog.HarmlessKeepsWhole(EMPTY_LOG, [], [], past);
    assert [] + Syslog.Sent(past) == Syslog.Sent(past);
  }

  /** If nothing sent in the first n events before the wait has the marker, something sent since then carried it. */
  ghost predicate AnnouncedSince(r: Relay, n: nat, marker: string)
    requires n <= |r.past|
  {
    (forall d <- Syslog.Sent(r.past[..n]) :: !Contains(Syslog.Truncate(d), marker)) ==>
      exists d <- Syslog.Sent(r.past[n..]) + SentDuring(r) :: Carries(d, marker)
  }

  /** Some datagram carried the marker; and from whatever moment on the marker was new, one sent since then did. */
  ghost predicate Announced(r: Relay, marker: string) {
    && (exists d <- Syslog.Sent(r.past) + SentDuring(r) :: Carries(d, marker))
    && forall n: nat :: n <= |r.past| ==> AnnouncedSince(r, n, marker)
  }

  lemma LaterPart<T>(a: seq<T>, b: seq<T>, c: seq<T>, i: nat)
    requires |a| <= i < |a + b + c|
    ensures (a + b + c)[i] in b + c
  {
    assert a + b + c == a + (b + c);
    assert (a + (b + c))[i] == (b + c)[i - |a|];
  }

  lemma SinceThen(r: Relay, n: nat, marker: string, early: seq<Syslog.Datagram>, i: nat)
    requires n <= |r.past| && forall d <- early :: d in SentDuring(r)
    requires i < |Syslog.Sent(r.past) + early|
    requires var d := (Syslog.Sent(r.past) + early)[i]; Carries(d, marker) && Contains(Syslog.Truncate(d), marker)
    ensures AnnouncedSince(r, n, marker)
  {
    var before, since := Syslog.Sent(r.past[..n]), Syslog.Sent(r.past[n..]);
    assert r.past == r.past[..n] + r.past[n..];
    Syslog.SentAppend(r.past[..n], r.past[n..]);
    if i < |before| {
      assert (before + since + early)[i] == before[i];
    } else {
      LaterPart(before, since, early, i);
    }
  }

  /** A wait that ended ready was announced. */
  lemma MarkerWasSent(r: Relay, marker: string, timeoutSecs: nat)
    requires Syslog.HarmlessEvents(r.past) && Kmsg.HarmlessPasses(r.schedule)
    requires marker != "" && '\n' !in marker
    requires WaitOn(r, marker, timeoutSecs).outcome == Kmsg.Ready
    ensures Announced(r, marker)
  {
    var log, sent := Syslog.After(EMPTY_LOG, r.past), Syslog.Sent(r.past);
    var kept := Made(r.past);
    var deadline := Kmsg.Deadline(r.start, timeoutSecs);
    var seen, i := Kmsg.NoFalseReadiness(log, kept, sent, 0, marker, r.start, deadline, r.schedule);
    var passes := WaitOn(r, marker, timeoutSecs).passes;
    var early := Syslog.Sent(Kmsg.Events(r.schedule[..passes]));
    Kmsg.SentEarlier(r.schedule, passes);
    forall n: nat | n <= |r.past| ensures AnnouncedSince(r, n, marker) {
      SinceThen(r, n, marker, early, i);
    }
    assert seen[i] in sent + early;
    assert forall d :: d in sent + early ==> d in sent + SentDuring(r);
    assert Carries(seen[i], marker);
  }

  // ---------- Old markers end a wait ----------

  lemma PendingIsSent(past: seq<Syslog.Event>)
    requires Syslog.Lossless(past)
    ensures var log := Syslog.After(EMPTY_LOG, past);
            && Terminated(log.file)
            && Kmsg.Pending(log, 0) == Syslog.Render(Syslog.Sent(past))
  {
    var all := Syslog.Sent(past);
    var n := Syslog.Conservation(EMPTY_LOG, [], 0, past);
    assert [] + all == all && all == all[..n] + all[n..];
    Syslog.RenderAppend(all[..n], all[n..]);
    Syslog.RenderTerminated(all[..n]);
    var log := Syslog.After(EMPTY_LOG, past);
    assert log.file[0..] == log.file;
  }

  lemma SentIsDue(past: seq<Syslog.Event>, d: Syslog.Datagram, marker: string)
    requires d in Syslog.Sent(past) && Carries(d, marker) && marker != "" && '\n' !in marker
    ensures var lines := Lines(Syslog.Render(Syslog.Sent(past))); Kmsg.FirstWith(lines, marker) < |lines|
  {
    var all := Syslog.Sent(past);
    var i :| 0 <= i < |all| && all[i] == d;
    Kmsg.RenderContains(all, i, marker);
    Kmsg.MarkerInOneLine(Syslog.Render(all), marker);
  }

  /** Because it reads the log from the beginning, a wait during which nothing at all is sent, and which goes smoothly
      for long enough, ends ready exactly when somebody sent the marker at any time before it: even before the daemon
      was started. */
  lemma OldMarkerExactly(r: Relay, marker: string, timeoutSecs: nat)
    requires Syslog.Lossless(r.past) && Kmsg.HarmlessPasses(r.schedule) && SentDuring(r) == []
    requires marker != "" && '\n' !in marker
    requires |Lines(Syslog.Render(Syslog.Sent(r.past)))|
             <= Kmsg.SmoothRun(r.schedule, r.start, r.start + 1000 * timeoutSecs)
    ensures WaitOn(r, marker, timeoutSecs).outcome == Kmsg.Ready <==>
              exists d <- Syslog.Sent(r.past) :: Carries(d, marker)
  {
    if exists d <- Syslog.Sent(r.past) :: Carries(d, marker) {
      OldMarkerEnds(r, marker, timeoutSecs);
    }
    if WaitOn(r, marker, timeoutSecs).outcome == Kmsg.Ready {
      OldMarkerNeeded(r, marker, timeoutSecs);
    }
  }

  lemma OldMarkerEnds(r: Relay, marker: string, timeoutSecs: nat)
    requires Syslog.Lossless(r.past) && marker != "" && '\n' !in marker
    requires |Lines(Syslog.Render(Syslog.Sent(r.past)))|
             <= Kmsg.SmoothRun(r.schedule, r.start, r.start + 1000 * timeoutSecs)
    requires exists d <- Syslog.Sent(r.past) :: Carries(d, marker)
    ensures WaitOn(r, marker, timeoutSecs).outcome == Kmsg.Ready
  {
    OldMarkerIsDue(r.past, marker);
    OldMarkerSuffices(r, marker, timeoutSecs);
  }

  lemma OldMarkerIsDue(past: seq<Syslog.Event>, marker: string)
    requires (exists d <- Syslog.Sent(past) :: Carries(d, marker)) && marker != "" && '\n' !in marker
    ensures var lines := Lines(Syslog.Render(Syslog.Sent(past))); Kmsg.FirstWith(lines, marker) < |lines|
  {
    var d :| d in Syslog.Sent(past) && Carries(d, marker);
    SentIsDue(past, d, marker);
  }

  lemma OldMarkerNeeded(r: Relay, marker: string, timeoutSecs: nat)
    requires Syslog.Lossless(r.past) && Kmsg.HarmlessPasses(r.schedule) && SentDuring(r) == []
    requires marker != "" && '\n' !in marker && WaitOn(r, marker, timeoutSecs).outcome == Kmsg.Ready
    ensures exists d <- Syslog.Sent(r.past) :: Carries(d, marker)
  {
    MarkerWasSent(r, marker, timeoutSecs);
    OnlySentBefore(r, marker);
  }

  lemma OnlySentBefore(r: Relay, marker: string)
    requires SentDuring(r) == [] && exists d <- Syslog.Sent(r.past) + SentDuring(r) :: Carries(d, marker)
    ensures exists d <- Syslog.Sent(r.past) :: Carries(d, marker)
  {
  }

  lemma OldMarkerSuffices(r: Relay, marker: string, timeoutSecs: nat)
    requires Syslog.Lossless(r.past)
    requires var lines := Lines(Syslog.Render(Syslog.Sent(r.past)));
             Kmsg.FirstWith(lines, marker) < |lines|
             <= Kmsg.SmoothRun(r.schedule, r.start, Kmsg.Deadline(r.start, timeoutSecs))
    ensures WaitOn(r, marker, timeoutSecs).outcome == Kmsg.Ready
  {
    var lines := Lines(Syslog.Render(Syslog.Sent(r.past)));
    PendingIsSent(r.past);
    var log := Syslog.After(EMPTY_LOG, r.past);
    assert log.file[0..] == log.file;
    Kmsg.ReadyInExactlyPass(log, Kmsg.Begin(0, r.start), marker, Kmsg.Deadline(r.start, timeoutSecs), r.schedule,
                            lines, Kmsg.FirstWith(lines, marker));
  }

  // ---------- The waits of a boot ----------

  lemma MarkersAreLines()
    ensures PERSISTENCED_READY != "" && '\n' !in PERSISTENCED_READY
    ensures FABRIC_READY != "" && '\n' !in FABRIC_READY
  {
  }

  lemma BootAwaitsKnown(w: World)
    ensures forall a <- BootPlan(w).script :: AwaitsKnown(a)
  {
    BootParts(w);
    EarlyIsEarly(w);
    ModeIsMode(w);
    PartsAwaitKnown(w, Early(w), ModeScript(w), [DisableModules], HandOff(w));
  }

  lemma PartsAwaitKnown(w: World, a: seq<Action>, b: seq<Action>, c: seq<Action>, d: seq<Action>)
    requires (forall x <- a :: EarlyAction(x)) && (forall x <- b :: ModeAction(w, x))
    requires (forall x <- c :: !x.AwaitMarker?) && forall x <- d :: !x.AwaitMarker?
    ensures forall x <- a + b + c + d :: AwaitsKnown(x)
  {
  }

  lemma KnownInRun(trace: seq<Action>, script: seq<Action>, i: nat)
    requires trace <= script && i < |trace| && forall a <- script :: AwaitsKnown(a)
    ensures AwaitsKnown(trace[i])
  {
    assert trace[i] == script[i] && script[i] in script;
  }

  lemma AnsweredReady(trace: seq<Action>, replies: Replies, relays: nat -> Relay, i: nat)
    requires RelayAnswers(trace, replies, relays) && i < |trace| && trace[i].AwaitMarker? && replies(i).done
    requires AwaitsKnown(trace[i])
    ensures Announced(relays(i), trace[i].marker)
  {
    MarkersAreLines();
    MarkerWasSent(relays(i), trace[i].marker, trace[i].timeoutSecs);
  }

  /** In any run, handed over or not, every wait that the run got past was announced: the persistence daemon's as well
      as the fabric manager's. */
  lemma WaitsWereAnnounced(w: World, replies: Replies, relays: nat -> Relay, i: nat)
    requires RelayAnswers(BootRun(w, replies).trace, replies, relays)
    requires i < |BootRun(w, replies).trace| - 1 && BootRun(w, replies).trace[i].AwaitMarker?
    ensures Announced(relays(i), BootRun(w, replies).trace[i].marker)
  {
    EveryBootEnds(w, replies);
    BootAwaitsKnown(w);
    KnownInRun(BootRun(w, replies).trace, BootPlan(w).script, i);
    assert Succeeds(BootRun(w, replies).trace[i], replies(i));
    AnsweredReady(BootRun(w, replies).trace, replies, relays, i);
  }

  // ---------- The persistence daemon ----------

  /** Where a script starts the persistence daemon and waits. */
  predicate StartsThenWaits(script: seq<Action>, i: nat)
    requires i < |script|
  {
    && i > 0 && script[i] == AwaitMarker(PERSISTENCED_READY, 120)
    && script[i - 1].Spawn? && script[i - 1].program.Persistenced?
  }

  lemma PersistencedInside(s: State, script: seq<Action>, pre: seq<Action>, post: seq<Action>)
    requires script == pre + PersistencedPlan(s).script + post
    ensures |pre| + 3 < |script| && StartsThenWaits(script, |pre| + 3)
  {
    assert |PersistencedPlan(s).script| == 4;
    assert script[|pre| + 3] == PersistencedPlan(s).script[3] && script[|pre| + 2] == PersistencedPlan(s).script[2];
  }

  lemma ServicesBegin(s: State, w: World) returns (post: seq<Action>)
    ensures GpuServicesPlan(s, w).script == PersistencedPlan(s).script + post
  {
    var p := PersistencedPlan(s);
    var q := HostenginePlan(p.state);
    var r := ExporterPlan(q.state);
    post := SmiClocks(s.settings) + q.script + r.script + [Run(NvidiaCtk, CdiArgs(Present(w)))] + SmiReady(s.settings)
            + Probes(|r.state.children|);
    Regroup(p.script, SmiClocks(s.settings), q.script, r.script, [Run(NvidiaCtk, CdiArgs(Present(w)))],
            SmiReady(s.settings), Probes(|r.state.children|));
  }

  lemma Regroup<T>(a: seq<T>, b: seq<T>, c: seq<T>, d: seq<T>, e: seq<T>, f: seq<T>, g: seq<T>)
    ensures a + b + c + d + e + f + g == a + (b + c + d + e + f + g)
  {
  }

  lemma Deeper<T>(script: seq<T>, early: seq<T>, mode: seq<T>, lock: seq<T>, end: seq<T>,
                  loads: seq<T>, p: seq<T>, x: seq<T>, y: seq<T>)
    requires script == early + mode + lock + end && mode == loads + p + (x + y)
    ensures script == (early + loads + p) + x + (y + lock + end)
  {
  }

  lemma PersistencedAwaited(w: World) returns (i: nat)
    requires Detect(w.pci).Ok? && Detect(w.pci).value.mode == Gpu
    ensures i < |BootPlan(w).script| && StartsThenWaits(BootPlan(w).script, i)
  {
    var p := NvSwitchPlan(InitialState(w), w, Detect(w.pci).value.nvswitch);
    var loads := [LoadModule(w, "nvidia"), LoadModule(w, "nvidia-uvm")];
    var post := ServicesBegin(p.state, w);
    BootParts(w);
    Deeper(BootPlan(w).script, Early(w), ModeScript(w), [DisableModules], HandOff(w),
           loads, p.script, PersistencedPlan(p.state).script, post);
    PersistencedInside(p.state, BootPlan(w).script, Early(w) + loads + p.script, post + [DisableModules] + HandOff(w));
    i := |Early(w) + loads + p.script| + 3;
  }

  lemma GotPast(trace: seq<Action>, script: seq<Action>, i: nat)
    requires trace == script && i < |script| && StartsThenWaits(script, i) && trace[|trace| - 1].Exec?
    ensures i < |trace| - 1 && StartsThenWaits(trace, i)
    ensures trace[i].AwaitMarker? && trace[i].marker == PERSISTENCED_READY
  {
  }

  /** A boot in gpu mode that reaches the kata-agent has started the persistence daemon and waited right after that,
      and somebody's datagram carried the daemon's marker. If none that was sent up to the start has it, one sent since
      then does. Who sent it is not known. */
  lemma PersistencedWasAnnounced(w: World, replies: Replies, relays: nat -> Relay) returns (i: nat)
    requires BootRun(w, replies).power == HandedOver
    requires Detect(w.pci).Ok? && Detect(w.pci).value.mode == Gpu
    requires RelayAnswers(BootRun(w, replies).trace, replies, relays)
    ensures i < |BootRun(w, replies).trace| && StartsThenWaits(BootRun(w, replies).trace, i)
    ensures Announced(relays(i), PERSISTENCED_READY)
  {
    EveryBootEnds(w, replies);
    i := PersistencedAwaited(w);
    GotPast(BootRun(w, replies).trace, BootPlan(w).script, i);
    WaitsWereAnnounced(w, replies, relays, i);
  }
}
