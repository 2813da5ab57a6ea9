/** src/kmsg.rs: the readiness handshake. NVRC follows /run/syslog.log line by line until a daemon's
    marker shows up, draining one datagram per pass, under a deadline. */
module Kmsg {
  import opened Text
  import opened Syslog

  /** Milliseconds slept when there is nothing to read. */
  const PAUSE: nat := 500

  /** What the rest of the system does during one pass of the wait: what daemons send before and after
      the drain, how the drain fares, how much time passes before the clock is read, whether a read would
      succeed, and by how much a sleep overshoots. A schedule is a list of these, one per pass. */
  datatype Pass = Pass(before: seq<Datagram>, fault: Fault, during: seq<Datagram>,
                       elapsed: nat, readable: bool, overslept: nat)

  function PassEvents(p: Pass): seq<Event> {
    [Arrive(p.before), Drain(p.fault), Arrive(p.during)]
  }

  function Events(passes: seq<Pass>): seq<Event> {
    if passes == [] then [] else PassEvents(passes[0]) + Events(passes[1..])
  }

  function AfterPass(log: Log, p: Pass): Log {
    After(log, PassEvents(p))
  }

  /** What the waiting loop itself sees of a pass: the file, and its own clock and read. */
  datatype View = View(file: string, elapsed: nat, readable: bool, overslept: nat)

  function ViewOf(log: Log, p: Pass): View {
    View(AfterPass(log, p).file, p.elapsed, p.readable, p.overslept)
  }

  function Views(log: Log, schedule: seq<Pass>): (views: seq<View>)
    ensures |views| == |schedule|
    decreases |schedule|
  {
    if schedule == [] then [] else
      [ViewOf(log, schedule[0])] + Views(AfterPass(log, schedule[0]), schedule[1..])
  }

  /** `Waiting` means that the schedule ended first: the observation stops, the wait does not. */
  datatype Outcome = Ready | TimedOut | Waiting

  /** How far a wait has come: outcome, reader offset, time, passes begun and sleeps taken. */
  datatype Wait = Wait(outcome: Outcome, pos: nat, now: nat, passes: nat, sleeps: nat)

  function Unread(file: string, pos: nat): string {
    if pos <= |file| then file[pos..] else ""
  }

  /** One pass of `wait_for_marker` after its drain; a wait that is over stays as it is. */
  function Look(w: Wait, v: View, marker: string, deadline: nat): Wait {
    if w.outcome != Waiting then w else
      var now, unread := w.now + v.elapsed, Unread(v.file, w.pos);
      if now > deadline then Wait(TimedOut, w.pos, now, w.passes + 1, w.sleeps)
      else if unread == "" || !v.readable then
        Wait(Waiting, w.pos, now + PAUSE + v.overslept, w.passes + 1, w.sleeps + 1)
      else
        var line := unread[..LineLength(unread)];
        Wait(if Contains(line, marker) then Ready else Waiting, w.pos + |line|, now, w.passes + 1, w.sleeps)
  }

  function Scan(w: Wait, views: seq<View>, marker: string, deadline: nat): Wait
    decreases |views|
  {
    if views == [] then w else Scan(Look(w, views[0], marker, deadline), views[1..], marker, deadline)
  }

  /** `wait_for_marker` beside daemons that enqueue at any time. */
  function Follow(log: Log, w: Wait, marker: string, deadline: nat, schedule: seq<Pass>): Wait {
    Scan(w, Views(log, schedule), marker, deadline)
  }

  function Begin(pos: nat, now: nat): Wait {
    Wait(Waiting, pos, now, 0, 0)
  }

  /** `now() + Duration::from_secs(timeout)`, in milliseconds. */
  function Deadline(start: nat, timeoutSecs: nat): nat {
    start + 1000 * timeoutSecs
  }

  lemma {:induction false} OverStaysOver(w: Wait, views: seq<View>, marker: string, deadline: nat)
    requires w.outcome != Waiting
    ensures Scan(w, views, marker, deadline) == w
    decreases |views|
  {
    if views != [] {
      OverStaysOver(w, views[1..], marker, deadline);
    }
  }

  // ---------- The loop ----------

  /** The `BufReader` that `open_kmsg` returns: an offset into the file, initially 0. */
  class LogReader {
    var pos: nat

    constructor ()
      ensures pos == 0
    {
      pos := 0;
    }

    /** `read_line`: the next line with its newline, what there is of it at the end, or nothing. */
    method ReadLine(sink: SyslogSink) returns (line: string)
      modifies this
      ensures line == Unread(sink.file, old(pos))[..LineLength(Unread(sink.file, old(pos)))]
      ensures pos == old(pos) + |line|
    {
      var unread := Unread(sink.file, pos);
      var n := LineLength(unread);
      line := unread[..n];
      pos := pos + n;
    }
  }

  /** The `try_poll` of one pass, between what the daemons send. */
  method DrainOnce(sink: SyslogSink, p: Pass)
    modifies sink
    ensures sink.State() == AfterPass(old(sink.State()), p)
  {
    PassSteps(sink.State(), p);
    sink.Deliver(p.before);
    sink.TryPoll(p.fault);
    sink.Deliver(p.during);
  }

  method WaitForMarker(sink: SyslogSink, reader: LogReader, marker: string, timeoutSecs: nat,
                       start: nat, schedule: seq<Pass>)
    returns (w: Wait)
    modifies sink, reader
    ensures w == Follow(old(sink.State()), Begin(old(reader.pos), start), marker, Deadline(start, timeoutSecs),
              schedule)
    ensures w.outcome == Ready ==> w.now <= start + 1000 * timeoutSecs
    ensures w.outcome == TimedOut ==> w.now > start + 1000 * timeoutSecs
    ensures w.passes <= |schedule| && w.pos == reader.pos
    ensures sink.State() == After(old(sink.State()), Events(schedule[..w.passes]))
  {
    var deadline := start + 1000 * timeoutSecs;
    var now: nat := start;
    var passes, sleeps := 0, 0;
    ghost var log := sink.State();
    ghost var whole := Follow(log, Begin(reader.pos, start), marker, deadline, schedule);
    while passes < |schedule|
      invariant passes <= |schedule|
      invariant sink.State() == After(log, Events(schedule[..passes]))
      invariant whole == Follow(sink.State(), Wait(Waiting, reader.pos, now, passes, sleeps), marker, deadline,
                                schedule[passes..])
    {
      var p := schedule[passes];
      ghost var rest := Views(AfterPass(sink.State(), p), schedule[passes + 1..]);
      EventsExtend(log, schedule, passes);
      assert schedule[passes..][1..] == schedule[passes + 1..];
      DrainOnce(sink, p);
      now := now + p.elapsed;
      passes := passes + 1;
      if now > deadline {
        w := Wait(TimedOut, reader.pos, now, passes, sleeps);
        OverStaysOver(w, rest, marker, deadline);
        return;
      }
      var line := "";
      if p.readable {
        line := reader.ReadLine(sink);
      }
      if line == "" {
        now := now + PAUSE + p.overslept;
        sleeps := sleeps + 1;
      } else if Contains(line, marker) {
        w := Wait(Ready, reader.pos, now, passes, sleeps);
        OverStaysOver(w, rest, marker, deadline);
        return;
      }
    }
    w := Wait(Waiting, reader.pos, now, passes, sleeps);
  }

  lemma PassSteps(log: Log, p: Pass)
    ensures AfterPass(log, p) == Step(Step(Step(log, Arrive(p.before)), Drain(p.fault)), Arrive(p.during))
  {
    var e := PassEvents(p);
    assert e[1..] == [Drain(p.fault), Arrive(p.during)];
    assert e[1..][1..] == [Arrive(p.during)];
    assert e[1..][1..][1..] == [];
    var a := Step(log, e[0]);
    var b := Step(a, e[1]);
    assert After(b, e[1..][1..]) == Step(b, e[2]);
    assert After(a, e[1..]) == After(b, e[1..][1..]);
  }

  lemma {:induction false} EventsAppend(a: seq<Pass>, b: seq<Pass>)
    ensures Events(a + b) == Events(a) + Events(b)
  {
    if a == [] {
      assert a + b == b;
    } else {
      assert (a + b)[1..] == a[1..] + b;
      EventsAppend(a[1..], b);
    }
  }

  lemma EventsExtend(log: Log, schedule: seq<Pass>, k: nat)
    requires k < |schedule|
    ensures After(log, Events(schedule[..k + 1])) == AfterPass(After(log, Events(schedule[..k])), schedule[k])
  {
    assert schedule[..k + 1] == schedule[..k] + [schedule[k]];
    assert Events([schedule[k]]) == PassEvents(schedule[k]);
    EventsAppend(schedule[..k], [schedule[k]]);
    AfterAppend(log, Events(schedule[..k]), PassEvents(schedule[k]));
  }

  /** What the loop sees in pass k is the file after the first k + 1 passes' arrivals and drains. */
  lemma {:induction false} ViewsAt(log: Log, schedule: seq<Pass>, k: nat)
    requires k < |schedule|
    ensures Views(log, schedule)[k].file == After(log, Events(schedule[..k + 1])).file
    decreases k
  {
    EventsExtend(log, schedule, 0);
    if k > 0 {
      var p, rest := schedule[0], schedule[1..];
      ViewsAt(AfterPass(log, p), rest, k - 1);
      assert schedule[..k + 1] == [p] + rest[..k];
      assert Events([p]) == PassEvents(p);
      EventsAppend([p], rest[..k]);
      AfterAppend(log, PassEvents(p), Events(rest[..k]));
    }
  }

  // ---------- No false readiness ----------

  /** A wait that ends ready has the marker before its eyes. */
  lemma {:induction false} ReadyHasRead(w: Wait, views: seq<View>, marker: string, deadline: nat)
    requires w.outcome == Waiting
    ensures var end := Scan(w, views, marker, deadline);
            && w.passes <= end.passes <= w.passes + |views|
            && (end.outcome == Waiting ==> end.passes == w.passes + |views|)
            && (end.outcome == Ready ==>
                  end.passes > w.passes && Contains(views[end.passes - w.passes - 1].file, marker))
    decreases |views|
  {
    if views != [] {
      var v, next := views[0], Look(w, views[0], marker, deadline);
      if next.outcome == Waiting {
        ReadyHasRead(next, views[1..], marker, deadline);
      } else {
        OverStaysOver(next, views[1..], marker, deadline);
        if next.outcome == Ready {
          LookFinds(w, v, marker, deadline);
        }
      }
    }
  }

  lemma LookFinds(w: Wait, v: View, marker: string, deadline: nat)
    requires w.outcome == Waiting && Look(w, v, marker, deadline).outcome == Ready
    ensures Contains(v.file, marker)
  {
    var unread := Unread(v.file, w.pos);
    var n := LineLength(unread);
    assert v.file == v.file[..w.pos] + unread[..n] + unread[n..];
    ContainsInPart(v.file[..w.pos], unread[..n], unread[n..], marker);
  }

  predicate LosslessPasses(schedule: seq<Pass>) {
    forall p <- schedule :: !p.fault.WriteStops?
  }

  lemma {:induction false} LosslessEvents(schedule: seq<Pass>)
    requires LosslessPasses(schedule)
    ensures Lossless(Events(schedule))
  {
    if schedule != [] {
      assert schedule[0] in schedule;
      assert forall p <- schedule[1..] :: p in schedule;
      LosslessEvents(schedule[1..]);
    }
  }

  lemma ReadyMeansInFile(log: Log, pos: nat, marker: string, start: nat, deadline: nat, schedule: seq<Pass>)
    requires Follow(log, Begin(pos, start), marker, deadline, schedule).outcome == Ready
    ensures var w := Follow(log, Begin(pos, start), marker, deadline, schedule);
            w.passes <= |schedule| && Contains(After(log, Events(schedule[..w.passes])).file, marker)
  {
    ReadyHasRead(Begin(pos, start), Views(log, schedule), marker, deadline);
    ViewsAt(log, schedule, Follow(log, Begin(pos, start), marker, deadline, schedule).passes - 1);
  }

  predicate HarmlessPasses(schedule: seq<Pass>) {
    forall p <- schedule :: Harmless(p.fault)
  }

  lemma {:induction false} HarmlessPassEvents(schedule: seq<Pass>)
    requires HarmlessPasses(schedule)
    ensures HarmlessEvents(Events(schedule))
  {
    if schedule != [] {
      assert schedule[0] in schedule;
      assert forall p <- schedule[1..] :: p in schedule;
      HarmlessPassEvents(schedule[1..]);
    }
  }

  /** Readiness is never made up: unless an append was cut within a record, the marker lies within a single
      received datagram, and if none of the messages sent before the wait carried it, that datagram was sent during
      the wait. The reader's offset does not matter, so this holds for the offset 0 that `open_kmsg` starts at. */
  lemma NoFalseReadiness(log: Log, kept: seq<Datagram>, sent: seq<Datagram>, pos: nat, marker: string,
                         start: nat, deadline: nat, schedule: seq<Pass>) returns (seen: seq<Datagram>, i: nat)
    requires Holding(log, kept, sent) && HarmlessPasses(schedule)
    requires marker != "" && '\n' !in marker
    requires Follow(log, Begin(pos, start), marker, deadline, schedule).outcome == Ready
    ensures var w := Follow(log, Begin(pos, start), marker, deadline, schedule);
            w.passes <= |schedule| && seen == sent + Sent(Events(schedule[..w.passes]))
    ensures i < |seen| && Contains(Receive(seen[i]), marker) && Contains(Truncate(seen[i]), marker)
    ensures (forall d <- sent :: !Contains(Truncate(d), marker)) ==> i >= |sent|
  {
    var w := Follow(log, Begin(pos, start), marker, deadline, schedule);
    ReadyMeansInFile(log, pos, marker, start, deadline, schedule);
    var events := Events(schedule[..w.passes]);
    seen := sent + Sent(events);
    assert forall p <- schedule[..w.passes] :: p in schedule;
    HarmlessPassEvents(schedule[..w.passes]);
    var whole := HarmlessKeepsWhole(log, kept, sent, events);
    var k := MarkerInOneMessage(whole, marker);
    assert whole[k] in seen;
    i :| 0 <= i < |seen| && seen[i] == whole[k];
    ReceiveIsPart(seen[i], marker);
    assert i < |sent| ==> seen[i] in sent;
  }

  // ---------- Which cuts can forge a marker ----------

  /** A wait, and the messages behind the file that it starts with. */
  datatype Trial = Trial(log: Log, kept: seq<Datagram>, sent: seq<Datagram>, pos: nat, marker: string,
                         start: nat, deadline: nat, schedule: seq<Pass>)

  /** It ends ready on a marker that no datagram carried, neither before nor at any time during the schedule. */
  ghost predicate Forged(t: Trial) {
    && Holding(t.log, t.kept, t.sent)
    && t.marker != "" && '\n' !in t.marker
    && Follow(t.log, Begin(t.pos, t.start), t.marker, t.deadline, t.schedule).outcome == Ready
    && forall d <- t.sent + Sent(Events(t.schedule)) :: !Contains(Truncate(d), t.marker)
  }

  predicate CutsAfter(schedule: seq<Pass>, k: nat) {
    forall p <- schedule :: p.fault.WriteStops? ==> p.fault.written == k
  }

  lemma SentEarlier(schedule: seq<Pass>, n: nat)
    requires n <= |schedule|
    ensures forall d <- Sent(Events(schedule[..n])) :: d in Sent(Events(schedule))
  {
    assert schedule == schedule[..n] + schedule[n..];
    EventsAppend(schedule[..n], schedule[n..]);
    SentAppend(Events(schedule[..n]), Events(schedule[n..]));
  }

  lemma SomebodySentIt(t: Trial)
    requires HarmlessPasses(t.schedule) && Holding(t.log, t.kept, t.sent)
    requires t.marker != "" && '\n' !in t.marker
    requires Follow(t.log, Begin(t.pos, t.start), t.marker, t.deadline, t.schedule).outcome == Ready
    ensures exists d <- t.sent + Sent(Events(t.schedule)) :: Contains(Truncate(d), t.marker)
  {
    var seen, i := NoFalseReadiness(t.log, t.kept, t.sent, t.pos, t.marker, t.start, t.deadline, t.schedule);
    SentEarlier(t.schedule, Follow(t.log, Begin(t.pos, t.start), t.marker, t.deadline, t.schedule).passes);
    assert seen[i] in seen;
  }

  lemma HarmlessForgesNothing(t: Trial)
    requires HarmlessPasses(t.schedule)
    ensures !Forged(t)
  {
    if Forged(t) {
      SomebodySentIt(t);
    }
  }

  function As(k: nat): (s: string)
    ensures |s| == k && forall c <- s :: c == 'a'
  {
    seq(k, _ => 'a')
  }

  lemma ReceivedAs(k: nat)
    requires 1 <= k <= BUFFER_SIZE
    ensures Truncate(As(k)) == As(k) && Record(As(k)) == As(k) + "\n"
  {
    var s := As(k);
    assert s[0] in s && s[k - 1] in s;
  }

  lemma HasCharacter(s: string, m: string, c: char)
    requires Contains(s, m) && c in m
    ensures c in s
  {
    var i := ContainsWhere(s, m);
    var n :| 0 <= n < |m| && m[n] == c;
    assert s[i..i + |m|][n] == s[i + n];
  }

  lemma LacksCharacter(s: string, m: string, c: char)
    requires c in m && c !in s
    ensures !Contains(s, m)
  {
    if Contains(s, m) {
      HasCharacter(s, m, c);
    }
  }

  /** The file holds one message "x", a drain writes k letters without their newline, and the next one completes
      them to a line that ends in "ab". */
  function ForgingTrial(k: nat): Trial {
    Trial(Log([], "x\n"), ["x"], ["x"], 0, "ab", 0, 0,
          [Pass([As(k)], WriteStops(k), [], 0, true, 0), Pass(["b"], NoFault, [], 0, true, 0)])
  }

  lemma OneMessage()
    ensures Record("x") == "x\n" && Render(["x"]) == "x\n"
    ensures Record("b") == "b\n" && Truncate("x") == "x" && Truncate("b") == "b"
  {
    assert ["x"][1..] == [];
    assert Render(["x"]) == Record("x") + Render([]);
  }

  lemma CutThenGlued(k: nat)
    requires 1 <= k <= BUFFER_SIZE
    ensures var t := ForgingTrial(k);
            var cut := AfterPass(t.log, t.schedule[0]);
            && cut == Log([], "x\n" + As(k))
            && AfterPass(cut, t.schedule[1]) == Log([], "x\n" + As(k) + "b\n")
  {
    var t := ForgingTrial(k);
    var cut := Log([], "x\n" + As(k));
    ReceivedAs(k);
    OneMessage();
    assert (As(k) + "\n")[..k] == As(k);
    PassSteps(t.log, t.schedule[0]);
    PassSteps(cut, t.schedule[1]);
  }

  lemma FirstLook(k: nat)
    ensures Look(Begin(0, 0), View("x\n" + As(k), 0, true, 0), "ab", 0) == Wait(Waiting, 2, 0, 1, 0)
  {
    var file := "x\n" + As(k);
    FindFirst("x", '\n', As(k));
    assert file == "x" + ['\n'] + As(k);
    assert Unread(file, 0) == file && file[..2] == "x\n";
    LacksCharacter("x\n", "ab", 'a');
  }

  lemma SecondLook(k: nat)
    requires k >= 1
    ensures Look(Wait(Waiting, 2, 0, 1, 0), View("x\n" + As(k) + "b\n", 0, true, 0), "ab", 0).outcome == Ready
  {
    var line := As(k) + "b\n";
    FindFirst(As(k) + "b", '\n', "");
    assert line == (As(k) + "b") + ['\n'] + "";
    assert Unread("x\n" + As(k) + "b\n", 2) == line && line[..k + 2] == line;
    EndsInAb(k);
  }

  lemma EndsInAb(k: nat)
    requires k >= 1
    ensures Contains(As(k) + "b\n", "ab")
  {
    assert As(k)[k - 1] in As(k);
    assert (As(k) + "b\n")[k - 1..k + 1] == "ab";
    ContainsAt(As(k) + "b\n", "ab", k - 1);
  }

  lemma TrialIsForged(k: nat)
    requires 1 <= k <= BUFFER_SIZE
    ensures Forged(ForgingTrial(k)) && CutsAfter(ForgingTrial(k).schedule, k) && Cuts(ForgingTrial(k).schedule) == 1
  {
    var t := ForgingTrial(k);
    var p, q := t.schedule[0], t.schedule[1];
    assert Cuts([q]) == 0 by { assert [q][1..] == []; }
    CutThenGlued(k);
    FirstLook(k);
    SecondLook(k);
    FollowStep(t.log, Begin(0, 0), "ab", 0, t.schedule);
    assert t.schedule[1..] == [q] && [q][1..] == [];
    FollowStep(AfterPass(t.log, p), Wait(Waiting, 2, 0, 1, 0), "ab", 0, [q]);
    NobodySentIt(k);
    OneMessage();
  }

  lemma NobodySentIt(k: nat)
    requires 1 <= k <= BUFFER_SIZE
    ensures forall d <- ForgingTrial(k).sent + Sent(Events(ForgingTrial(k).schedule)) :: !Contains(Truncate(d), "ab")
  {
    SentInTrial(k);
    OneMessage();
    ReceivedAs(k);
    LacksCharacter("x", "ab", 'a');
    LacksCharacter("b", "ab", 'a');
    LacksCharacter(As(k), "ab", 'b');
  }

  lemma SentInTrial(k: nat)
    ensures Sent(Events(ForgingTrial(k).schedule)) == [As(k), "b"]
  {
    var p, q := ForgingTrial(k).schedule[0], ForgingTrial(k).schedule[1];
    SentInPass(p);
    SentInPass(q);
    EventsAppend([p], [q]);
    SentAppend(Events([p]), Events([q]));
    assert [p] + [q] == ForgingTrial(k).schedule;
  }

  lemma SentInPass(p: Pass)
    ensures Sent(Events([p])) == p.before + p.during
  {
    var a, b, c := [Arrive(p.before)], [Drain(p.fault)], [Arrive(p.during)];
    assert Events([p]) == a + b + c;
    SentAppend(a + b, c);
    SentAppend(a, b);
    assert a[1..] == [] && b[1..] == [] && c[1..] == [];
    assert Sent(a) == p.before && Sent(b) == [] && Sent(c) == p.during;
  }

  /** Appends that stop after k characters can make a wait end ready on a marker that no datagram carried if and
      only if k is positive and at most the size of the receive buffer. One such stop then suffices; otherwise no number
      of them does. */
  lemma CutForgesExactly(k: nat)
    ensures (exists t: Trial :: Forged(t) && CutsAfter(t.schedule, k)) <==> 1 <= k <= BUFFER_SIZE
    ensures 1 <= k <= BUFFER_SIZE ==> exists t: Trial :: Forged(t) && CutsAfter(t.schedule, k) && Cuts(t.schedule) == 1
  {
    if 1 <= k <= BUFFER_SIZE {
      TrialIsForged(k);
      assert exists t: Trial :: Forged(t) && CutsAfter(t.schedule, k) && Cuts(t.schedule) == 1;
      assert exists t: Trial :: Forged(t) && CutsAfter(t.schedule, k);
    }
    if t: Trial :| Forged(t) && CutsAfter(t.schedule, k) {
      OnlyHarmfulForges(t, k);
    }
  }

  lemma OnlyHarmfulForges(t: Trial, k: nat)
    requires Forged(t) && CutsAfter(t.schedule, k)
    ensures 1 <= k <= BUFFER_SIZE
  {
    if k == 0 || k > BUFFER_SIZE {
      HarmlessForgesNothing(t);
    }
  }

  // ---------- Exactness ----------

  /** The text still to be read: what is in the file after the offset, then what is queued. */
  function Pending(log: Log, pos: nat): string
    requires pos <= |log.file|
  {
    log.file[pos..] + Render(log.queue)
  }

  /** A pass in which nothing fails. */
  predicate Smooth(p: Pass) {
    p.fault.NoFault? && p.readable
  }

  lemma ArriveKeepsPending(log: Log, pos: nat, ds: seq<Datagram>)
    requires pos <= |log.file|
    ensures Pending(Step(log, Arrive(ds)), pos) == Pending(log, pos) + Render(ds)
  {
    RenderAppend(log.queue, ds);
  }

  lemma DrainKeepsPending(log: Log, pos: nat)
    requires pos <= |log.file| && Terminated(log.file[pos..])
    ensures var log' := Poll(log, NoFault);
            && log.file <= log'.file && Terminated(log'.file[pos..])
            && Pending(log', pos) == Pending(log, pos)
            && (Pending(log, pos) != "" ==> log'.file[pos..] != "")
  {
    if log.queue != [] {
      RecordTerminated(log.queue[0]);
      TerminatedParts(log.file[pos..], Record(log.queue[0]));
      SuffixAppend(log.file, pos, Record(log.queue[0]), Render(log.queue[1..]));
    }
  }

  lemma SuffixAppend(file: string, pos: nat, record: string, queued: string)
    requires pos <= |file|
    ensures (file + record)[pos..] == file[pos..] + record
    ensures (file + record)[pos..] + queued == file[pos..] + (record + queued)
  {
  }

  /** A pass adds the arrivals to the pending text, and moves some of it into the file if there is any. */
  lemma PassKeepsPending(log: Log, pos: nat, p: Pass)
    requires pos <= |log.file| && Smooth(p)
    requires Terminated(log.file[pos..])
    ensures var log' := AfterPass(log, p);
            && log.file <= log'.file
            && Terminated(log'.file[pos..])
            && (Pending(log, pos) != "" ==> log'.file[pos..] != "")
            && Pending(log', pos) == Pending(log, pos) + (Render(p.before) + Render(p.during))
  {
    PassSteps(log, p);
    var a := Step(log, Arrive(p.before));
    var b := Poll(a, NoFault);
    ArriveKeepsPending(log, pos, p.before);
    DrainKeepsPending(a, pos);
    ArriveKeepsPending(b, pos, p.during);
    Associative(Pending(log, pos), Render(p.before), Render(p.during));
  }

  /** Reading the first line of the file's unread part takes the first line of the pending text. */
  lemma ReadTakesFirst(unread: string, queued: string, text: string, arrived: string)
    requires unread != "" && Terminated(unread) && Terminated(queued)
    requires text != "" && Terminated(text)
    requires unread + queued == text + arrived
    ensures Lines(text) != [] && Lines(text)[0] == unread[..LineLength(unread)]
    ensures Terminated(unread[LineLength(unread)..])
    ensures Lines(unread[LineLength(unread)..] + queued) == Lines(text)[1..] + Lines(arrived)
  {
    FirstLine(unread);
    FirstLine(text);
    LinesAppend(text, arrived);
    LinesAppend(unread, queued);
    LinesAppend(unread[LineLength(unread)..], queued);
    SameHeadAndTail(Lines(text), Lines(arrived), Lines(unread), Lines(queued));
  }

  lemma SameHeadAndTail<T>(a: seq<T>, b: seq<T>, c: seq<T>, d: seq<T>)
    requires a + b == c + d && a != [] && c != []
    ensures a[0] == c[0] && a[1..] + b == c[1..] + d
  {
    assert (a + b)[0] == a[0] && (c + d)[0] == c[0];
    assert (a + b)[1..] == a[1..] + b && (c + d)[1..] == c[1..] + d;
  }

  /** `lines` are still to be read. */
  ghost predicate Due(log: Log, pos: nat, lines: seq<string>) {
    pos <= |log.file| && Terminated(log.file[pos..]) && lines == Lines(Pending(log, pos))
  }

  /** One smooth and timely pass with lines due: it reads the first; the others and the arrivals' stay due. */
  lemma PassReadsFirst(log: Log, w: Wait, p: Pass, marker: string, deadline: nat, lines: seq<string>)
      returns (next: Wait)
    requires w.outcome == Waiting && Smooth(p) && w.now + p.elapsed <= deadline
    requires Due(log, w.pos, lines) && lines != []
    ensures next == Look(w, ViewOf(log, p), marker, deadline)
    ensures next == Wait(if Contains(lines[0], marker) then Ready else Waiting, next.pos, w.now + p.elapsed,
                         w.passes + 1, w.sleeps)
    ensures Due(AfterPass(log, p), next.pos, lines[1..] + Lines(Render(p.before) + Render(p.during)))
  {
    var log' := AfterPass(log, p);
    PassKeepsPending(log, w.pos, p);
    RenderTerminated(log.queue);
    RenderTerminated(log'.queue);
    TerminatedParts(log.file[w.pos..], Render(log.queue));
    ReadTakesFirst(log'.file[w.pos..], Render(log'.queue), Pending(log, w.pos), Render(p.before) + Render(p.during));
    next := LookTakesLine(w, ViewOf(log, p), marker, deadline);
  }

  lemma LookTakesLine(w: Wait, v: View, marker: string, deadline: nat) returns (next: Wait)
    requires w.outcome == Waiting && w.now + v.elapsed <= deadline && v.readable && w.pos < |v.file|
    ensures next == Look(w, v, marker, deadline)
    ensures var n := LineLength(v.file[w.pos..]);
            && next.pos == w.pos + n <= |v.file| && v.file[next.pos..] == v.file[w.pos..][n..]
            && next.outcome == (if Contains(v.file[w.pos..][..n], marker) then Ready else Waiting)
            && next.now == w.now + v.elapsed && next.passes == w.passes + 1 && next.sleeps == w.sleeps
  {
    next := Look(w, v, marker, deadline);
  }

  /** How many passes from here on go smoothly and read the clock by the deadline. */
  function SmoothRun(schedule: seq<Pass>, now: nat, deadline: nat): nat {
    if schedule == [] || !Smooth(schedule[0]) || now + schedule[0].elapsed > deadline then 0
    else 1 + SmoothRun(schedule[1..], now + schedule[0].elapsed, deadline)
  }

  /** The index of the first line with the marker, or the number of lines. */
  function FirstWith(lines: seq<string>, marker: string): (j: nat)
    ensures j <= |lines|
  {
    if lines == [] || Contains(lines[0], marker) then 0 else 1 + FirstWith(lines[1..], marker)
  }

  lemma {:induction false} FirstWithMore(lines: seq<string>, more: seq<string>, marker: string)
    requires FirstWith(lines, marker) < |lines|
    ensures FirstWith(lines + more, marker) == FirstWith(lines, marker)
  {
    if !Contains(lines[0], marker) {
      assert (lines + more)[1..] == lines[1..] + more;
      FirstWithMore(lines[1..], more, marker);
    }
  }

  lemma FirstWithTail(lines: seq<string>, more: seq<string>, marker: string, j: nat)
    requires 0 < j == FirstWith(lines, marker) < |lines|
    ensures j - 1 == FirstWith(lines[1..] + more, marker) < |lines[1..] + more|
  {
    FirstWithMore(lines[1..], more, marker);
  }

  lemma SmoothRunNext(schedule: seq<Pass>, now: nat, deadline: nat, j: nat)
    requires j < SmoothRun(schedule, now, deadline)
    ensures schedule != [] && Smooth(schedule[0]) && now + schedule[0].elapsed <= deadline
    ensures j <= SmoothRun(schedule[1..], now + schedule[0].elapsed, deadline)
  {
  }

  /** One pass of a wait with its marker due: it is over, or line j - 1 of what is then due has the marker. */
  lemma PassTowardsMarker(log: Log, w: Wait, p: Pass, marker: string, deadline: nat, lines: seq<string>, j: nat)
      returns (next: Wait, lines': seq<string>)
    requires w.outcome == Waiting && Smooth(p) && w.now + p.elapsed <= deadline
    requires Due(log, w.pos, lines) && j == FirstWith(lines, marker) < |lines|
    ensures next == Look(w, ViewOf(log, p), marker, deadline)
    ensures next.passes == w.passes + 1 && next.sleeps == w.sleeps && next.now == w.now + p.elapsed
    ensures j == 0 ==> next.outcome == Ready
    ensures j > 0 ==>
              && next.outcome == Waiting && Due(AfterPass(log, p), next.pos, lines')
              && j - 1 == FirstWith(lines', marker) < |lines'|
  {
    var arrived := Lines(Render(p.before) + Render(p.during));
    next := PassReadsFirst(log, w, p, marker, deadline, lines);
    lines' := lines[1..] + arrived;
    if j > 0 {
      FirstWithTail(lines, arrived, marker, j);
    }
  }

  /** The same for the first pass of a schedule, in terms of the whole wait. */
  lemma TowardsMarker(log: Log, w: Wait, marker: string, deadline: nat, schedule: seq<Pass>, lines: seq<string>, j: nat)
      returns (next: Wait, lines': seq<string>)
    requires w.outcome == Waiting && Due(log, w.pos, lines) && j == FirstWith(lines, marker) < |lines|
    requires j < SmoothRun(schedule, w.now, deadline)
    ensures schedule != [] && next.passes == w.passes + 1 && next.sleeps == w.sleeps
    ensures var end := Follow(log, w, marker, deadline, schedule);
            && (j == 0 ==> end == next && next.outcome == Ready)
            && (j > 0 ==> end == Follow(AfterPass(log, schedule[0]), next, marker, deadline, schedule[1..]))
    ensures j > 0 ==>
              && next.outcome == Waiting && Due(AfterPass(log, schedule[0]), next.pos, lines')
              && j - 1 == FirstWith(lines', marker) < |lines'|
              && j - 1 < SmoothRun(schedule[1..], next.now, deadline)
  {
    SmoothRunNext(schedule, w.now, deadline, j);
    next, lines' := PassTowardsMarker(log, w, schedule[0], marker, deadline, lines, j);
    FollowStep(log, w, marker, deadline, schedule);
    if j == 0 {
      OverStaysOver(next, Views(AfterPass(log, schedule[0]), schedule[1..]), marker, deadline);
    }
  }

  /** Exactness under concurrency: if line j of the pending text is its first with the marker, the wait
      ends ready in pass j + 1 without a single sleep, whatever the daemons send meanwhile, as long as those
      passes go smoothly and within the deadline. */
  lemma {:induction false} ReadyInExactlyPass(log: Log, w: Wait, marker: string, deadline: nat, schedule: seq<Pass>,
                                              lines: seq<string>, j: nat)
    requires w.outcome == Waiting && Due(log, w.pos, lines)
    requires j == FirstWith(lines, marker) < |lines|
    requires j < SmoothRun(schedule, w.now, deadline)
    ensures var end := Follow(log, w, marker, deadline, schedule);
            end.outcome == Ready && end.passes == w.passes + j + 1 && end.sleeps == w.sleeps
    decreases j
  {
    var next, lines' := TowardsMarker(log, w, marker, deadline, schedule, lines, j);
    if j > 0 {
      ReadyInExactlyPass(AfterPass(log, schedule[0]), next, marker, deadline, schedule[1..], lines', j - 1);
    }
  }

  lemma FollowStep(log: Log, w: Wait, marker: string, deadline: nat, schedule: seq<Pass>)
    requires schedule != []
    ensures Follow(log, w, marker, deadline, schedule)
         == Follow(AfterPass(log, schedule[0]), Look(w, ViewOf(log, schedule[0]), marker, deadline),
                   marker, deadline, schedule[1..])
  {
  }

  // ---------- A marker that arrives during the wait ----------

  /** What is left to read, line by line, if nothing else arrives. */
  function PendingLines(log: Log, pos: nat): seq<string> {
    Lines(Unread(log.file, pos) + Render(log.queue))
  }

  lemma {:induction false} FollowAppend(log: Log, w: Wait, marker: string, deadline: nat, a: seq<Pass>, b: seq<Pass>)
    ensures Follow(log, w, marker, deadline, a + b)
         == Follow(After(log, Events(a)), Follow(log, w, marker, deadline, a), marker, deadline, b)
    decreases |a|
  {
    if a == [] {
      assert a + b == b;
    } else {
      var p, rest := a[0], a[1..];
      assert (a + b)[1..] == rest + b;
      FollowStep(log, w, marker, deadline, a);
      FollowStep(log, w, marker, deadline, a + b);
      AfterAppend(log, PassEvents(p), Events(rest));
      FollowAppend(AfterPass(log, p), Look(w, ViewOf(log, p), marker, deadline), marker, deadline, rest, b);
    }
  }

  /** A newline-free text found in a text lies within one of its lines. */
  lemma {:induction false} MarkerInOneLine(text: string, marker: string)
    requires Contains(text, marker) && marker != "" && '\n' !in marker
    ensures FirstWith(Lines(text), marker) < |Lines(text)|
    decreases |text|
  {
    assert text != "";
    var n := LineLength(text);
    var line, rest := text[..n], text[n..];
    InLineOrRest(text, marker);
    assert Lines(text)[0] == line && Lines(text)[1..] == Lines(rest);
    if !Contains(line, marker) {
      MarkerInOneLine(rest, marker);
    }
  }

  lemma InLineOrRest(text: string, marker: string)
    requires Contains(text, marker) && text != "" && marker != "" && '\n' !in marker
    ensures var n := LineLength(text); Contains(text[..n], marker) || Contains(text[n..], marker)
  {
    FindIsFirst(text, '\n');
    var m := Find(text, '\n');
    if m < |text| {
      var body, rest := text[..m], text[m + 1..];
      assert text == body + "\n" + rest && text[..m + 1] == body + "\n";
      NewlineSeparates(body, rest, marker);
      if Contains(body, marker) {
        ContainsInPart("", body, "\n", marker);
        assert "" + body + "\n" == body + "\n";
      }
    } else {
      assert text[..m] == text;
    }
  }

  lemma {:induction false} RenderContains(ds: seq<Datagram>, i: nat, marker: string)
    requires i < |ds| && Contains(Receive(ds[i]), marker)
    ensures Contains(Render(ds), marker)
    decreases i
  {
    var rest := Render(ds[1..]);
    if i == 0 {
      ContainsInPart("", Receive(ds[0]), "\n" + rest, marker);
      assert "" + Receive(ds[0]) + ("\n" + rest) == Record(ds[0]) + rest;
    } else {
      RenderContains(ds[1..], i - 1, marker);
      ContainsInPart(Record(ds[0]), rest, "", marker);
      assert Record(ds[0]) + rest + "" == Render(ds);
    }
  }

  lemma QueuedIsPending(log: Log, pos: nat, d: Datagram, marker: string)
    requires d in log.queue && Contains(Receive(d), marker) && marker != "" && '\n' !in marker
    ensures FirstWith(PendingLines(log, pos), marker) < |PendingLines(log, pos)|
  {
    var i :| 0 <= i < |log.queue| && log.queue[i] == d;
    RenderContains(log.queue, i, marker);
    var unread := Unread(log.file, pos);
    ContainsInPart(unread, Render(log.queue), "", marker);
    assert unread + Render(log.queue) + "" == unread + Render(log.queue);
    MarkerInOneLine(unread + Render(log.queue), marker);
  }

  /** Bounded response: whenever, k passes into a wait, a datagram with the marker is queued, the wait ends ready
      within as many further passes as there are lines pending then, and without any further sleep, if those passes
      go smoothly and within the deadline. A datagram that arrived in pass k - 1 after its drain is among these, so
      the wait is held up by no more than the sleep of that pass. */
  lemma ReadyAfterArrival(log: Log, w: Wait, marker: string, deadline: nat, schedule: seq<Pass>, k: nat, d: Datagram)
    requires w.outcome == Waiting && w.pos <= |log.file| && Terminated(log.file)
    requires k <= |schedule| && LosslessPasses(schedule[..k])
    requires Follow(log, w, marker, deadline, schedule[..k]).outcome == Waiting
    requires d in After(log, Events(schedule[..k])).queue && Contains(Receive(d), marker)
    requires marker != "" && '\n' !in marker
    requires var mid := Follow(log, w, marker, deadline, schedule[..k]);
             |PendingLines(After(log, Events(schedule[..k])), mid.pos)| <= SmoothRun(schedule[k..], mid.now, deadline)
    ensures var mid := Follow(log, w, marker, deadline, schedule[..k]);
            var end := Follow(log, w, marker, deadline, schedule);
            && end.outcome == Ready && end.sleeps == mid.sleeps
            && end.passes <= mid.passes + |PendingLines(After(log, Events(schedule[..k])), mid.pos)|
  {
    var a, b := schedule[..k], schedule[k..];
    assert schedule == a + b;
    FollowAppend(log, w, marker, deadline, a, b);
    var log', mid := After(log, Events(a)), Follow(log, w, marker, deadline, a);
    ReadsArePaid(log, w, marker, deadline, a);
    LosslessEvents(a);
    FileGrows(log, Events(a));
    EverythingIsDue(log', mid.pos);
    QueuedIsPending(log', mid.pos, d, marker);
    ReadyInExactlyPass(log', mid, marker, deadline, b, PendingLines(log', mid.pos),
                       FirstWith(PendingLines(log', mid.pos), marker));
  }

  lemma EverythingIsDue(log: Log, pos: nat)
    requires pos <= |log.file| && Terminated(log.file)
    ensures Due(log, pos, PendingLines(log, pos))
  {
    assert log.file == log.file[..pos] + log.file[pos..];
    TerminatedParts(log.file[..pos], log.file[pos..]);
  }

  // ---------- Termination ----------

  /** Each sleep uses up half a second of the time left. */
  predicate SleptInTime(w: Wait, start: nat, deadline: nat) {
    && start + PAUSE * w.sleeps <= w.now
    && (w.sleeps > 0 ==> start + PAUSE * (w.sleeps - 1) <= deadline)
  }

  lemma {:induction false} SleepsBound(w: Wait, views: seq<View>, marker: string, start: nat, deadline: nat)
    requires SleptInTime(w, start, deadline)
    ensures SleptInTime(Scan(w, views, marker, deadline), start, deadline)
    decreases |views|
  {
    if views != [] {
      SleepsBound(Look(w, views[0], marker, deadline), views[1..], marker, start, deadline);
    }
  }

  /** A wait ends ready only by the deadline, and times out only after it. */
  lemma {:induction false} EndsInTime(w: Wait, views: seq<View>, marker: string, deadline: nat)
    requires w.outcome == Waiting
    ensures var end := Scan(w, views, marker, deadline);
            && (end.outcome == Ready ==> end.now <= deadline)
            && (end.outcome == TimedOut ==> end.now > deadline)
    decreases |views|
  {
    if views != [] {
      var next := Look(w, views[0], marker, deadline);
      if next.outcome == Waiting {
        EndsInTime(next, views[1..], marker, deadline);
      } else {
        OverStaysOver(next, views[1..], marker, deadline);
      }
    }
  }

  /** With nothing to read, or nothing that can be read, a pass in time sleeps half a second or more. */
  lemma SleepTakes(w: Wait, v: View, marker: string, deadline: nat)
    requires w.outcome == Waiting && w.now + v.elapsed <= deadline && (w.pos >= |v.file| || !v.readable)
    ensures Look(w, v, marker, deadline)
         == Wait(Waiting, w.pos, w.now + v.elapsed + 500 + v.overslept, w.passes + 1, w.sleeps + 1)
  {
  }

  /** Nothing is sent, nothing fails, and no time passes but in sleeps. */
  predicate Idle(p: Pass) {
    p.before == [] && p.during == [] && p.fault.NoFault? && p.readable && p.elapsed == 0 && p.overslept == 0
  }

  lemma IdlePass(log: Log, w: Wait, p: Pass, marker: string, deadline: nat)
    requires Idle(p) && log.queue == [] && w.outcome == Waiting && w.pos == |log.file|
    ensures AfterPass(log, p) == log
    ensures Look(w, ViewOf(log, p), marker, deadline)
         == if w.now > deadline then Wait(TimedOut, w.pos, w.now, w.passes + 1, w.sleeps)
            else Wait(Waiting, w.pos, w.now + 500, w.passes + 1, w.sleeps + 1)
  {
    PassSteps(log, p);
    assert [] + p.before == [] && [] + p.during == [];
  }

  lemma {:induction false} IdleUntil(log: Log, w: Wait, marker: string, deadline: nat, schedule: seq<Pass>, n: nat)
    requires log.queue == [] && w.outcome == Waiting && w.pos == |log.file|
    requires |schedule| > n && forall p <- schedule :: Idle(p)
    requires w.now + 500 * n > deadline && (n > 0 ==> w.now + 500 * (n - 1) <= deadline)
    ensures Follow(log, w, marker, deadline, schedule)
         == Wait(TimedOut, w.pos, w.now + 500 * n, w.passes + n + 1, w.sleeps + n)
    decreases n
  {
    var p, rest := schedule[0], schedule[1..];
    IdlePass(log, w, p, marker, deadline);
    FollowStep(log, w, marker, deadline, schedule);
    var next := Look(w, ViewOf(log, p), marker, deadline);
    if n == 0 {
      OverStaysOver(next, Views(log, rest), marker, deadline);
    } else {
      IdleUntil(log, next, marker, deadline, rest, n - 1);
    }
  }

  /** A wait in which nothing happens sleeps exactly 2T + 1 times, half a second each, and then times out. */
  lemma IdleWaitTimesOut(log: Log, marker: string, start: nat, timeoutSecs: nat, schedule: seq<Pass>)
    requires log.queue == [] && |schedule| > 2 * timeoutSecs + 1 && forall p <- schedule :: Idle(p)
    ensures Follow(log, Begin(|log.file|, start), marker, Deadline(start, timeoutSecs), schedule)
         == Wait(TimedOut, |log.file|, start + 1000 * timeoutSecs + 500, 2 * timeoutSecs + 2, 2 * timeoutSecs + 1)
  {
    IdleUntil(log, Begin(|log.file|, start), marker, Deadline(start, timeoutSecs), schedule, 2 * timeoutSecs + 1);
  }

  /** Every file that the loop sees is a whole-line beginning of `text`. */
  predicate SeesOnly(views: seq<View>, text: string) {
    if views == [] then Terminated(text)
    else views[0].file <= text && Terminated(views[0].file) && SeesOnly(views[1..], text)
  }

  /** The lines between two offsets. */
  function Between(text: string, from: nat, to: nat): seq<string>
    requires from <= to <= |text|
  {
    Lines(text[from..to])
  }

  lemma ReadIsLine(file: string, text: string, pos: nat) returns (n: nat)
    requires file <= text && Terminated(file) && pos < |file|
    ensures n == LineLength(Unread(file, pos)) && pos + n <= |file|
    ensures Terminated(text[..pos + n])
    ensures Unread(file, pos)[..n] == text[pos..pos + n]
    ensures Between(text, pos, pos + n) == [text[pos..pos + n]]
  {
    var unread := file[pos..];
    n := LineLength(unread);
    assert file == file[..pos] + unread && text[pos..pos + n] == unread[..n]
        && text[..pos + n] == text[..pos] + unread[..n];
    TerminatedParts(file[..pos], unread);
    FirstLine(unread);
    TerminatedParts(text[..pos], unread[..n]);
  }

  lemma BetweenSplits(text: string, a: nat, b: nat, c: nat)
    requires a <= b <= c <= |text| && Terminated(text[..b])
    ensures Between(text, a, c) == Between(text, a, b) + Between(text, b, c)
  {
    assert text[a..c] == text[a..b] + text[b..c] && text[..b] == text[..a] + text[a..b];
    TerminatedParts(text[..a], text[a..b]);
    LinesAppend(text[a..b], text[b..c]);
  }

  /** The passes of a wait that neither slept nor timed out each took the next line; the marker is in the last of
      them if the wait ended ready, and in no other. */
  predicate ReadSoFar(w: Wait, text: string, from: nat, marker: string) {
    && from <= w.pos <= |text| && Terminated(text[..w.pos])
    && w.passes == |Between(text, from, w.pos)| + w.sleeps + (if w.outcome == TimedOut then 1 else 0)
    && FirstWith(Between(text, from, w.pos), marker)
       == |Between(text, from, w.pos)| - (if w.outcome == Ready then 1 else 0)
  }

  /** Reading the next line of the file adds it to what has been read. */
  lemma ReadOneMore(file: string, text: string, from: nat, pos: nat, marker: string) returns (n: nat, line: string)
    requires file <= text && Terminated(file) && from <= pos < |file| && Terminated(text[..pos])
    requires FirstWith(Between(text, from, pos), marker) == |Between(text, from, pos)|
    ensures n == LineLength(Unread(file, pos)) && pos + n <= |file| && Terminated(text[..pos + n])
    ensures line == Unread(file, pos)[..n] && n == |line|
    ensures |Between(text, from, pos + n)| == |Between(text, from, pos)| + 1
    ensures FirstWith(Between(text, from, pos + n), marker)
         == |Between(text, from, pos)| + (if Contains(line, marker) then 0 else 1)
  {
    n := ReadIsLine(file, text, pos);
    line := text[pos..pos + n];
    BetweenSplits(text, from, pos, pos + n);
    FirstWithLast(Between(text, from, pos), line, marker);
  }

  lemma LookReadsLine(w: Wait, v: View, marker: string, deadline: nat, text: string, from: nat)
    requires ReadSoFar(w, text, from, marker) && v.file <= text && Terminated(v.file)
    ensures ReadSoFar(Look(w, v, marker, deadline), text, from, marker)
  {
    if w.outcome == Waiting && w.now + v.elapsed <= deadline && Unread(v.file, w.pos) != "" && v.readable {
      var n, line := ReadOneMore(v.file, text, from, w.pos, marker);
    }
  }

  lemma {:induction false} FirstWithLast(read: seq<string>, line: string, marker: string)
    requires FirstWith(read, marker) == |read|
    ensures FirstWith(read + [line], marker) == |read| + (if Contains(line, marker) then 0 else 1)
  {
    if read != [] {
      assert (read + [line])[1..] == read[1..] + [line];
      FirstWithLast(read[1..], line, marker);
    } else {
      assert [line][1..] == [];
    }
  }

  lemma {:induction false} ScanReadsLines(w: Wait, views: seq<View>, marker: string, deadline: nat, text: string,
                                          from: nat)
    requires ReadSoFar(w, text, from, marker) && SeesOnly(views, text)
    ensures ReadSoFar(Scan(w, views, marker, deadline), text, from, marker)
    decreases |views|
  {
    if views != [] {
      LookReadsLine(w, views[0], marker, deadline, text, from);
      ScanReadsLines(Look(w, views[0], marker, deadline), views[1..], marker, deadline, text, from);
    }
  }

  lemma {:induction false} FileGrows(log: Log, events: seq<Event>)
    ensures log.file <= After(log, events).file
    ensures Terminated(log.file) && Lossless(events) ==> Terminated(After(log, events).file)
    decreases |events|
  {
    if events != [] {
      if events[0].Drain? && log.queue != [] {
        RecordTerminated(log.queue[0]);
        TerminatedParts(log.file, Record(log.queue[0]));
      }
      FileGrows(Step(log, events[0]), events[1..]);
    }
  }

  /** In a relay that loses nothing, all the loop sees are whole-line beginnings of the final file. */
  lemma {:induction false} SeesWholeLines(log: Log, schedule: seq<Pass>)
    requires Terminated(log.file) && LosslessPasses(schedule)
    ensures SeesOnly(Views(log, schedule), After(log, Events(schedule)).file)
    decreases |schedule|
  {
    if schedule == [] {
      assert Views(log, schedule) == [];
    } else {
      var p, rest := schedule[0], schedule[1..];
      assert p in schedule && forall q <- rest :: q in schedule;
      LosslessEvents(rest);
      FileGrows(log, PassEvents(p));
      FileGrows(AfterPass(log, p), Events(rest));
      AfterAppend(log, PassEvents(p), Events(rest));
      SeesWholeLines(AfterPass(log, p), rest);
    }
  }

  /** In a relay that loses nothing, the passes that neither slept nor timed out each took one whole line, and only
      the last line taken can have the marker. */
  lemma WholeLinesRead(log: Log, pos: nat, marker: string, start: nat, deadline: nat, schedule: seq<Pass>)
    requires Terminated(log.file) && pos <= |log.file| && Terminated(log.file[..pos])
    requires LosslessPasses(schedule)
    ensures ReadSoFar(Follow(log, Begin(pos, start), marker, deadline, schedule), After(log, Events(schedule)).file,
              pos, marker)
  {
    var file := After(log, Events(schedule)).file;
    FileGrows(log, Events(schedule));
    SeesWholeLines(log, schedule);
    assert file[..pos] == log.file[..pos] && file[pos..pos] == "";
    ScanReadsLines(Begin(pos, start), Views(log, schedule), marker, deadline, file, pos);
  }

  // ---------- The measure, under any faults ----------

  function Newlines(s: string): nat {
    if s == "" then 0 else (if s[0] == '\n' then 1 else 0) + Newlines(s[1..])
  }

  lemma {:induction false} NewlinesAppend(a: string, b: string)
    ensures Newlines(a + b) == Newlines(a) + Newlines(b)
  {
    if a == "" {
      assert a + b == b;
    } else {
      assert (a + b)[1..] == a[1..] + b;
      NewlinesAppend(a[1..], b);
    }
  }

  lemma {:induction false} NewlinesNone(s: string)
    requires '\n' !in s
    ensures Newlines(s) == 0
  {
    if s != "" {
      NewlinesNone(s[1..]);
    }
  }

  lemma FirstLineNewlines(s: string)
    requires s != ""
    ensures var n := LineLength(s); Newlines(s[..n]) == if '\n' in s then 1 else 0
  {
    FindIsFirst(s, '\n');
    var m := Find(s, '\n');
    NewlinesNone(s[..m]);
    if m < |s| {
      assert s[..m + 1] == s[..m] + "\n" && "\n"[1..] == "";
      NewlinesAppend(s[..m], "\n");
    }
  }

  lemma {:induction false} NewlinesAreLines(s: string)
    ensures Newlines(s) <= |Lines(s)|
    decreases |s|
  {
    if s != "" {
      var n := LineLength(s);
      FirstLineNewlines(s);
      NewlinesAreLines(s[n..]);
      assert s == s[..n] + s[n..];
      NewlinesAppend(s[..n], s[n..]);
    }
  }

  /** 1 if the unread part of the file ends within a line. */
  function OpenTail(file: string, pos: nat): nat {
    if pos < |file| && !Terminated(file) then 1 else 0
  }

  /** How many passes may have cut a record in two. */
  function Cuts(schedule: seq<Pass>): nat {
    if schedule == [] then 0 else (if Harmless(schedule[0].fault) then 0 else 1) + Cuts(schedule[1..])
  }

  /** Only a harmful stop opens the end of the file. */
  lemma PassOpens(log: Log, p: Pass, pos: nat)
    requires pos <= |log.file|
    ensures log.file <= AfterPass(log, p).file
    ensures OpenTail(AfterPass(log, p).file, pos) <= OpenTail(log.file, pos) + if Harmless(p.fault) then 0 else 1
  {
    PassSteps(log, p);
    var a := Step(log, Arrive(p.before));
    assert AfterPass(log, p).file == Poll(a, p.fault).file;
    if Harmless(p.fault) {
      HarmlessPoll(a, p.fault);
      if a.queue != [] {
        RecordTerminated(a.queue[0]);
        TerminatedParts(a.file, Record(a.queue[0]));
      }
    }
  }

  /** A read uses up a newline or the open tail. */
  lemma ReadUsesUp(file: string, pos: nat) returns (n: nat)
    requires pos < |file|
    ensures n == LineLength(Unread(file, pos)) && 0 < n && pos + n <= |file|
    ensures 1 + OpenTail(file, pos + n) <= Newlines(file[pos..pos + n]) + OpenTail(file, pos)
  {
    var unread := file[pos..];
    n := LineLength(unread);
    FirstLineNewlines(unread);
    FindIsFirst(unread, '\n');
    assert file[pos..pos + n] == unread[..n];
    if '\n' !in unread {
      TerminatedIs(file);
      assert unread[|unread| - 1] == file[|file| - 1] && unread[|unread| - 1] in unread;
    }
  }

  /** Passes that did not sleep, so far. */
  function Reads(w: Wait): int {
    w.passes - w.sleeps - if w.outcome == TimedOut then 1 else 0
  }

  lemma LookUsesUp(w: Wait, v: View, marker: string, deadline: nat)
    requires w.outcome == Waiting && w.pos <= |v.file|
    ensures var next := Look(w, v, marker, deadline);
            && w.pos <= next.pos <= |v.file|
            && Reads(next) + OpenTail(v.file, next.pos) <= Reads(w) + Newlines(v.file[w.pos..next.pos])
                  + OpenTail(v.file, w.pos)
  {
    if w.pos < |v.file| {
      var n := ReadUsesUp(v.file, w.pos);
    }
  }

  lemma NewlinesBetween(file: string, later: string, a: nat, b: nat, c: nat)
    requires file <= later && a <= b <= c <= |later| && b <= |file|
    ensures Newlines(later[a..c]) == Newlines(file[a..b]) + Newlines(later[b..c])
  {
    assert later[a..c] == file[a..b] + later[b..c];
    NewlinesAppend(file[a..b], later[b..c]);
  }

  /** Every read is paid for by a newline it passed, by a harmful stop, or by a tail that was open before. */
  lemma {:induction false} ReadsArePaid(log: Log, w: Wait, marker: string, deadline: nat, schedule: seq<Pass>)
    requires w.outcome == Waiting && w.pos <= |log.file|
    ensures var end, file := Follow(log, w, marker, deadline, schedule), After(log, Events(schedule)).file;
            && log.file <= file && w.pos <= end.pos <= |file|
            && Reads(end) <= Reads(w) + Newlines(file[w.pos..end.pos]) + Cuts(schedule) + OpenTail(log.file, w.pos)
    decreases |schedule|
  {
    if schedule != [] {
      var p, rest := schedule[0], schedule[1..];
      var log' := AfterPass(log, p);
      PassOpens(log, p, w.pos);
      var next := Look(w, ViewOf(log, p), marker, deadline);
      LookUsesUp(w, ViewOf(log, p), marker, deadline);
      FollowStep(log, w, marker, deadline, schedule);
      AfterAppend(log, PassEvents(p), Events(rest));
      FileGrows(log', Events(rest));
      if next.outcome == Waiting {
        ReadsArePaid(log', next, marker, deadline, rest);
      } else {
        OverStaysOver(next, Views(log', rest), marker, deadline);
      }
      NewlinesBetween(log'.file, After(log, Events(schedule)).file, w.pos, next.pos,
                      Follow(log, w, marker, deadline, schedule).pos);
    }
  }

  /** The measure of the wait, whatever fails and whatever the file looks like: it sleeps at most 2T + 1 times, and its
      other passes, but for the one that notices the deadline, are at most the lines to read, one more for every
      append that was cut and one for a last line that was open before. So a longer schedule sees it end. */
  lemma WaitEnds(log: Log, pos: nat, marker: string, start: nat, timeoutSecs: nat, schedule: seq<Pass>)
    requires pos <= |log.file|
    ensures pos <= |After(log, Events(schedule)).file|
    ensures var w := Follow(log, Begin(pos, start), marker, Deadline(start, timeoutSecs), schedule);
            var unread := After(log, Events(schedule)).file[pos..];
            var bound := |Lines(unread)| + Cuts(schedule) + OpenTail(log.file, pos) + 2 * timeoutSecs + 2;
            && w.sleeps <= 2 * timeoutSecs + 1
            && w.passes <= bound
            && (|schedule| > bound ==> w.outcome != Waiting)
  {
    var deadline := Deadline(start, timeoutSecs);
    var w := Follow(log, Begin(pos, start), marker, deadline, schedule);
    var file := After(log, Events(schedule)).file;
    SleepsBound(Begin(pos, start), Views(log, schedule), marker, start, deadline);
    ReadyHasRead(Begin(pos, start), Views(log, schedule), marker, deadline);
    ReadsArePaid(log, Begin(pos, start), marker, deadline, schedule);
    NewlinesBetween(file, file, pos, w.pos, |file|);
    assert file[pos..] == file[pos..|file|];
    NewlinesAreLines(file[pos..]);
  }
}
