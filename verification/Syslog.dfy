/** src/syslog.rs: the relay from the /dev/log socket to the append-only file /run/syslog.log.
    Datagrams are ASCII text, so one character stands for one byte. */
module Syslog {
  import opened Text

  type Datagram = string

  /** Size of the receive buffer; the kernel drops the rest of a longer datagram. */
  const BUFFER_SIZE: nat := 4096

  function StripPriority(msg: string): string {
    if msg != "" && msg[0] == '<' then
      var n := Find(msg[1..], '>');
      if n < |msg| - 1 then msg[n + 2..] else msg
    else msg
  }

  function Truncate(d: Datagram): string {
    if |d| <= BUFFER_SIZE then d else d[..BUFFER_SIZE]
  }

  /** What `poll_socket` makes of a datagram. */
  function Receive(d: Datagram): string {
    StripPriority(TrimEnd(Truncate(d)))
  }

  /** What `forward_message` appends for a datagram. */
  function Record(d: Datagram): string {
    Receive(d) + "\n"
  }

  function Render(ds: seq<Datagram>): string {
    if ds == [] then "" else Record(ds[0]) + Render(ds[1..])
  }

  /** What can go wrong in one drain: binding, polling or receiving fails and the queue is untouched,
      or the append stops after `written` characters and the rest of the record is lost. */
  datatype Fault = NoFault | PollFails | WriteStops(written: nat)

  datatype Log = Log(queue: seq<Datagram>, file: string)

  /** One call of `try_poll`. */
  function Poll(log: Log, fault: Fault): Log {
    if log.queue == [] || fault.PollFails? then log
    else
      var record := Record(log.queue[0]);
      var appended := if fault.WriteStops? && fault.written < |record| then record[..fault.written] else record;
      Log(log.queue[1..], log.file + appended)
  }

  /** The two things that happen to the log, in any interleaving: daemons enqueue, NVRC drains. */
  datatype Event = Arrive(ds: seq<Datagram>) | Drain(fault: Fault)

  function Step(log: Log, e: Event): Log {
    match e
    case Arrive(ds) => log.(queue := log.queue + ds)
    case Drain(fault) => Poll(log, fault)
  }

  function After(log: Log, events: seq<Event>): Log
    decreases |events|
  {
    if events == [] then log else After(Step(log, events[0]), events[1..])
  }

  function Sent(events: seq<Event>): seq<Datagram> {
    if events == [] then []
    else (if events[0].Arrive? then events[0].ds else []) + Sent(events[1..])
  }

  function Drains(events: seq<Event>): nat {
    if events == [] then 0 else (if events[0].Drain? then 1 else 0) + Drains(events[1..])
  }

  /** No append was cut short. */
  predicate Lossless(events: seq<Event>) {
    forall e <- events :: e.Drain? ==> !e.fault.WriteStops?
  }

  predicate Faultless(events: seq<Event>) {
    forall e <- events :: e.Drain? ==> e.fault.NoFault?
  }

  // ---------- The relay as the program runs it ----------

  class SyslogSink {
    var queue: seq<Datagram>
    var file: string

    constructor ()
      ensures State() == Log([], "")
    {
      queue, file := [], "";
    }

    ghost function State(): Log
      reads this
    {
      Log(queue, file)
    }

    /** The daemons' side. */
    method Deliver(ds: seq<Datagram>)
      modifies this
      ensures State() == Step(old(State()), Arrive(ds))
    {
      queue := queue + ds;
    }

    method PollSocket(fails: bool) returns (msg: Option<string>)
      modifies this`queue
      ensures old(queue) == [] || fails ==> msg == None && queue == old(queue)
      ensures old(queue) != [] && !fails ==> msg == Some(Receive(old(queue)[0])) && queue == old(queue)[1..]
      ensures msg.Some? ==> old(queue) != [] && Normalises(old(queue)[0], msg.value)
    {
      if queue == [] || fails {
        return None;
      }
      var buf := queue[0];
      queue := queue[1..];
      if |buf| > BUFFER_SIZE {
        buf := buf[..BUFFER_SIZE];
      }
      ReceiveNormalises(old(queue)[0]);
      return Some(StripPriority(TrimEnd(buf)));
    }

    method ForwardMessage(msg: string, fault: Fault)
      modifies this`file
      ensures !fault.WriteStops? ==> file == old(file) + msg + "\n"
      ensures fault.WriteStops? ==>
                file == old(file) + (if fault.written <= |msg| then msg[..fault.written] else msg + "\n")
    {
      var line := msg + "\n";
      if fault.WriteStops? && fault.written < |line| {
        file := file + line[..fault.written];
      } else {
        file := file + line;
      }
      assert line[..|msg|] == msg;
    }

    method TryPoll(fault: Fault)
      modifies this
      ensures State() == Step(old(State()), Drain(fault))
    {
      var msg := PollSocket(fault.PollFails?);
      if msg.Some? {
        ForwardMessage(msg.value, fault);
      }
    }

    /** `syslog_loop` of src/kata_agent.rs: two sleeps and drains per second, with what the daemons
        send during each half second. */
    method SyslogLoop(timeoutSecs: nat, schedule: seq<(seq<Datagram>, Fault)>)
      requires |schedule| == timeoutSecs * 2
      modifies this
      ensures State() == After(old(State()), LoopEvents(schedule))
    {
      var iterations := timeoutSecs * 2;
      for k := 0 to iterations
        invariant After(State(), LoopEvents(schedule[k..])) == After(old(State()), LoopEvents(schedule))
      {
        RoundFirst(State(), schedule[k..]);
        Deliver(schedule[k].0);
        TryPoll(schedule[k].1);
      }
    }
  }

  /** `msg` is what is left of a datagram: of its first 4096 characters, without the blanks at the end, what comes
      after a leading "<...>". */
  ghost predicate Normalises(d: Datagram, msg: string) {
    var buf := if |d| <= 4096 then d else d[..4096];
    exists n :: 0 <= n <= |buf| && Blank(buf[n..]) && (n == 0 || !IsWhitespace(buf[n - 1])) && Untags(buf[..n], msg)
  }

  predicate TagEndsAt(text: string, i: int) {
    0 < i < |text| && text[0] == '<' && text[i] == '>' && '>' !in text[1..i]
  }

  ghost predicate Untags(text: string, msg: string) {
    if exists i :: TagEndsAt(text, i) then exists i :: TagEndsAt(text, i) && msg == text[i + 1..] else msg == text
  }

  lemma StripUntags(text: string)
    ensures Untags(text, StripPriority(text))
  {
    if text != "" && text[0] == '<' {
      var rest := text[1..];
      FindIsFirst(rest, '>');
      var n := Find(rest, '>');
      if n < |rest| {
        assert text[1..n + 1] == rest[..n];
        assert TagEndsAt(text, n + 1);
      } else {
        forall i ensures !TagEndsAt(text, i) {
          assert 0 < i < |text| ==> text[i] == rest[i - 1] && rest[i - 1] in rest;
        }
      }
    }
  }

  lemma {:induction false} TrimEndCuts(s: string) returns (n: nat)
    ensures n <= |s| && TrimEnd(s) == s[..n] && Blank(s[n..]) && (n == 0 || !IsWhitespace(s[n - 1]))
  {
    if s != "" && IsWhitespace(s[|s| - 1]) {
      var t := s[..|s| - 1];
      n := TrimEndCuts(t);
      assert s[..n] == t[..n] && s[n..] == t[n..] + [s[|s| - 1]];
    } else {
      n := |s|;
      assert s[..n] == s;
    }
  }

  lemma ReceiveNormalises(d: Datagram)
    ensures Normalises(d, Receive(d))
  {
    var buf := if |d| <= 4096 then d else d[..4096];
    var n := TrimEndCuts(buf);
    StripUntags(buf[..n]);
  }

  /** A datagram with a priority is received as its body, and so is one without. */
  lemma ReceivedBody(pri: string, body: string, blanks: string)
    requires '>' !in pri && Blank(blanks) && (body == "" || !IsWhitespace(body[|body| - 1]))
    ensures |"<" + pri + ">" + body + blanks| <= 4096 ==> Receive("<" + pri + ">" + body + blanks) == body
    ensures |body + blanks| <= 4096 && (body == "" || body[0] != '<') ==> Receive(body + blanks) == body
  {
    var tagged := "<" + pri + ">" + body;
    assert tagged[|tagged| - 1] == if body == "" then '>' else body[|body| - 1];
    TrimEndOf(tagged, blanks);
    TrimEndOf(body, blanks);
    StripPriorityExactly(pri, body, body);
  }

  /** Only the first 4096 characters of a datagram are received. */
  lemma ReceivedBeginning(d: Datagram)
    ensures |d| > 4096 ==> Receive(d) == Receive(d[..4096])
  {
  }

  /** The events of a drain loop: in every round arrivals, then one drain. */
  function LoopEvents(schedule: seq<(seq<Datagram>, Fault)>): seq<Event> {
    if schedule == [] then []
    else [Arrive(schedule[0].0), Drain(schedule[0].1)] + LoopEvents(schedule[1..])
  }

  lemma RoundFirst(log: Log, schedule: seq<(seq<Datagram>, Fault)>)
    requires schedule != []
    ensures After(log, LoopEvents(schedule))
         == After(Step(Step(log, Arrive(schedule[0].0)), Drain(schedule[0].1)), LoopEvents(schedule[1..]))
  {
    var events := LoopEvents(schedule);
    assert events[1..][0] == Drain(schedule[0].1) && events[1..][1..] == LoopEvents(schedule[1..]);
  }

  lemma {:induction false} LoopDrains(schedule: seq<(seq<Datagram>, Fault)>)
    ensures Drains(LoopEvents(schedule)) == |schedule|
  {
    if schedule != [] {
      var events := LoopEvents(schedule);
      assert events[1..][0] == Drain(schedule[0].1) && events[1..][1..] == LoopEvents(schedule[1..]);
      LoopDrains(schedule[1..]);
    }
  }

  // ---------- Laws ----------

  lemma {:induction false} AfterAppend(log: Log, a: seq<Event>, b: seq<Event>)
    ensures After(log, a + b) == After(After(log, a), b)
    decreases |a|
  {
    if a == [] {
      assert a + b == b;
    } else {
      assert (a + b)[1..] == a[1..] + b;
      AfterAppend(Step(log, a[0]), a[1..], b);
    }
  }

  lemma {:induction false} SentAppend(a: seq<Event>, b: seq<Event>)
    ensures Sent(a + b) == Sent(a) + Sent(b)
  {
    if a == [] {
      assert a + b == b;
    } else {
      assert (a + b)[1..] == a[1..] + b;
      SentAppend(a[1..], b);
    }
  }

  lemma {:induction false} RenderAppend(a: seq<Datagram>, b: seq<Datagram>)
    ensures Render(a + b) == Render(a) + Render(b)
  {
    if a == [] {
      assert a + b == b;
    } else {
      assert (a + b)[1..] == a[1..] + b;
      RenderAppend(a[1..], b);
    }
  }

  lemma RecordTerminated(d: Datagram)
    ensures Terminated(Record(d))
  {
    TerminatedIs(Record(d));
  }

  lemma {:induction false} RenderTerminated(ds: seq<Datagram>)
    ensures Terminated(Render(ds)) && (ds != [] ==> Render(ds) != "")
    ensures |Lines(Render(ds))| >= |ds|
  {
    if ds != [] {
      RenderTerminated(ds[1..]);
      RecordTerminated(ds[0]);
      TerminatedParts(Record(ds[0]), Render(ds[1..]));
      LinesAppend(Record(ds[0]), Render(ds[1..]));
    }
  }

  /** The messages `all`, in order, are split between file and queue after the first `n`. */
  ghost predicate SplitAt(log: Log, all: seq<Datagram>, n: nat) {
    n <= |all| && log.queue == all[n..] && log.file == Render(all[..n])
  }

  lemma DrainMovesOne(log: Log, all: seq<Datagram>, n: nat, fault: Fault)
    requires SplitAt(log, all, n) && !fault.WriteStops?
    ensures SplitAt(Poll(log, fault), all, if log.queue == [] || fault.PollFails? then n else n + 1)
  {
    if log.queue != [] && !fault.PollFails? {
      assert all[..n + 1] == all[..n] + [all[n]];
      assert Render([all[n]]) == Record(all[n]);
      RenderAppend(all[..n], [all[n]]);
    }
  }

  /** Conservation: the file holds, in order and whole, the messages no longer queued; nothing is
      lost, repeated or overtaken, and each drain moves at most one message. */
  lemma {:induction false} Conservation(log: Log, all: seq<Datagram>, n: nat, events: seq<Event>) returns (n': nat)
    requires SplitAt(log, all, n) && Lossless(events)
    ensures n <= n' <= n + Drains(events)
    ensures SplitAt(After(log, events), all + Sent(events), n')
    decreases |events|
  {
    if events == [] {
      assert all + Sent(events) == all;
      n' := n;
    } else {
      var e, rest := events[0], events[1..];
      if e.Arrive? {
        ArriveSplits(log, all, n, e.ds);
        assert all + Sent(events) == (all + e.ds) + Sent(rest);
        n' := Conservation(Step(log, e), all + e.ds, n, rest);
      } else {
        DrainMovesOne(log, all, n, e.fault);
        assert Sent(events) == Sent(rest);
        n' := Conservation(Step(log, e), all, if log.queue == [] || e.fault.PollFails? then n else n + 1, rest);
      }
    }
  }

  /** Progress: in a run without faults, k drains forward at least the first k messages of the backlog, whole and
      in order, whatever arrives meanwhile. */
  lemma {:induction false} BacklogForwarded(log: Log, all: seq<Datagram>, n: nat, events: seq<Event>) returns (n': nat)
    requires SplitAt(log, all, n) && Faultless(events)
    ensures n' <= n + Drains(events)
              && n' >= n + (if Drains(events) <= |log.queue| then Drains(events) else |log.queue|)
    ensures SplitAt(After(log, events), all + Sent(events), n')
    decreases |events|
  {
    if events == [] {
      assert all + Sent(events) == all;
      n' := n;
    } else {
      var e, rest := events[0], events[1..];
      if e.Arrive? {
        ArriveSplits(log, all, n, e.ds);
        assert all + Sent(events) == (all + e.ds) + Sent(rest);
        n' := BacklogForwarded(Step(log, e), all + e.ds, n, rest);
      } else {
        DrainMovesOne(log, all, n, e.fault);
        assert Sent(events) == Sent(rest);
        n' := BacklogForwarded(Step(log, e), all, if log.queue == [] then n else n + 1, rest);
      }
    }
  }

  lemma ArriveSplits(log: Log, all: seq<Datagram>, n: nat, ds: seq<Datagram>)
    requires SplitAt(log, all, n)
    ensures SplitAt(Step(log, Arrive(ds)), all + ds, n)
  {
    assert (all + ds)[n..] == all[n..] + ds && (all + ds)[..n] == all[..n];
  }

  // ---------- Appends that stop early ----------

  /** A stopped append leaves no part of a record behind when it stopped at once, or past the longest record. */
  predicate Harmless(fault: Fault) {
    fault.WriteStops? ==> fault.written == 0 || fault.written > BUFFER_SIZE
  }

  predicate HarmlessEvents(events: seq<Event>) {
    forall e <- events :: e.Drain? ==> Harmless(e.fault)
  }

  /** The file holds whole messages, in some order and perhaps not all, and nothing was made up. */
  ghost predicate Holding(log: Log, kept: seq<Datagram>, sent: seq<Datagram>) {
    log.file == Render(kept) && (forall d <- kept :: d in sent) && forall d <- log.queue :: d in sent
  }

  lemma RecordLength(d: Datagram)
    ensures |Record(d)| <= BUFFER_SIZE + 1
  {
  }

  /** A harmless drain appends a whole record or nothing. */
  lemma HarmlessPoll(log: Log, fault: Fault)
    requires Harmless(fault)
    ensures || Poll(log, fault).file == log.file
            || (log.queue != [] && Poll(log, fault).file == log.file + Record(log.queue[0]))
  {
    if log.queue != [] {
      RecordLength(log.queue[0]);
    }
  }

  lemma HarmlessStep(log: Log, kept: seq<Datagram>, sent: seq<Datagram>, fault: Fault) returns (kept': seq<Datagram>)
    requires Holding(log, kept, sent) && Harmless(fault)
    ensures Holding(Poll(log, fault), kept', sent)
  {
    HarmlessPoll(log, fault);
    if Poll(log, fault).file == log.file {
      kept' := kept;
    } else {
      kept' := kept + [log.queue[0]];
      RenderAppend(kept, [log.queue[0]]);
      assert Render([log.queue[0]]) == Record(log.queue[0]);
    }
  }

  /** Without a harmful stop the file only ever holds whole messages that were sent. */
  lemma {:induction false} HarmlessKeepsWhole(log: Log, kept: seq<Datagram>, sent: seq<Datagram>, events: seq<Event>)
      returns (kept': seq<Datagram>)
    requires Holding(log, kept, sent) && HarmlessEvents(events)
    ensures Holding(After(log, events), kept', sent + Sent(events))
    decreases |events|
  {
    if events == [] {
      assert sent + Sent(events) == sent;
      kept' := kept;
    } else {
      var e, rest := events[0], events[1..];
      if e.Arrive? {
        assert sent + Sent(events) == (sent + e.ds) + Sent(rest);
        kept' := HarmlessKeepsWhole(Step(log, e), kept, sent + e.ds, rest);
      } else {
        assert Sent(events) == Sent(rest);
        var next := HarmlessStep(log, kept, sent, e.fault);
        kept' := HarmlessKeepsWhole(Step(log, e), next, sent, rest);
      }
    }
  }

  // ---------- Where a line of the file comes from ----------

  /** A leading "<...>" is dropped up to the first ">", whatever it encloses; any other message is kept. */
  lemma StripPriorityExactly(pri: string, rest: string, msg: string)
    requires '>' !in pri
    ensures StripPriority("<" + pri + ">" + rest) == rest
    ensures !("<" <= msg) || '>' !in msg ==> StripPriority(msg) == msg
  {
    var s := "<" + pri + ">" + rest;
    FindFirst(pri, '>', rest);
    assert s[1..] == pri + ['>'] + rest && s[|pri| + 2..] == rest;
    if "<" <= msg && '>' !in msg {
      FindIsFirst(msg[1..], '>');
    }
  }

  lemma ReceiveIsPart(d: Datagram, m: string)
    requires Contains(Receive(d), m)
    ensures Contains(Truncate(d), m)
  {
    var t := TrimEnd(Truncate(d));
    TrimEndIs(Truncate(d));
    var r := Receive(d);
    assert r == t[|t| - |r|..];
    var head, tail := t[..|t| - |r|], Truncate(d)[|t|..];
    assert Truncate(d) == head + r + tail;
    ContainsInPart(head, r, tail, m);
  }

  lemma NewlineSeparates(r: string, tail: string, m: string)
    requires Contains(r + "\n" + tail, m) && '\n' !in m
    ensures Contains(r, m) || Contains(tail, m)
  {
    var s := r + "\n" + tail;
    var k := ContainsWhere(s, m);
    if k + |m| <= |r| {
      assert r[k..k + |m|] == m;
      ContainsAt(r, m, k);
    } else if |r| < k {
      assert tail[k - |r| - 1..k - |r| - 1 + |m|] == m;
      ContainsAt(tail, m, k - |r| - 1);
    } else {
      CoversNewline(s, m, k, |r|);
    }
  }

  lemma CoversNewline(s: string, m: string, k: nat, i: nat)
    requires k <= i < k + |m| <= |s| && s[k..k + |m|] == m
    ensures s[i] in m
  {
    assert s[k..k + |m|][i - k] == s[i];
  }

  lemma FirstOrLater(ds: seq<Datagram>, m: string)
    requires Contains(Render(ds), m) && m != "" && '\n' !in m
    ensures ds != [] && (Contains(Receive(ds[0]), m) || Contains(Render(ds[1..]), m))
  {
    if ds != [] {
      NewlineSeparates(Receive(ds[0]), Render(ds[1..]), m);
    }
  }

  /** A newline-free text found in the file lies within one forwarded message. */
  lemma {:induction false} MarkerInOneMessage(ds: seq<Datagram>, m: string) returns (i: nat)
    requires Contains(Render(ds), m) && m != "" && '\n' !in m
    ensures i < |ds| && Contains(Receive(ds[i]), m)
  {
    FirstOrLater(ds, m);
    if Contains(Receive(ds[0]), m) {
      i := 0;
    } else {
      i := MarkerInOneMessage(ds[1..], m);
      i := i + 1;
    }
  }
}
