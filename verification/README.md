# NVRC in Dafny

NVRC is the PID 1 of a GPU micro VM. It mounts file systems, relays syslog, reads its settings from the kernel
command line, verifies and mounts image extensions, works out from the PCI devices which mode it is in, starts and
checks the NVIDIA daemons, locks module loading down and hands over to the kata-agent. Any failure powers the
machine off. This project models that program and proves what it does for all inputs and all behaviours of the
kernel, the commands and the daemons. `dafny verify dfyconfig.toml` checks all of it.

## How the model is built

| file | models |
|---|---|
| `Text.dfy`, `Numerals.dfy`, `Bags.dfy` | the string and number operations of Rust's library that the parsers rest on; sequences up to order |
| `Syslog.dfy` | `src/syslog.rs`: the relay from `/dev/log` to the append-only log file, as a class and as a transition system |
| `Kmsg.dfy` | `src/kmsg.rs`: the wait for a daemon's marker, beside daemons that send at any time |
| `ConfigFile.dfy` | `src/config.rs`: the KEY=VALUE updater |
| `Topology.dfy` | `src/mode.rs`, `src/modprobe.rs`: mode detection and module options |
| `KernelParams.dfy` | `src/kernel_params.rs`: the fold of the command line into the settings |
| `Infiniband.dfy` | `src/infiniband.rs`: the choice of the management port |
| `Extensions.dfy`, `ExtensionMounts.dfy` | `src/guest_extension_image.rs`: parameters, reconciliation, `veritysetup` arguments, mount targets |
| `System.dfy` | the machine: a run is a trace of actions, and an oracle answers each of them |
| `Nvrc.dfy`, `Daemon.dfy`, `Boot.dfy` | `src/nvrc.rs`, `src/daemon.rs`, `src/main.rs`, `src/kata_agent.rs`: the boot sequence |
| `BootSafety.dfy`, `BootFabric.dfy`, `BootMounts.dfy`, `BootSettings.dfy`, `BootReadiness.dfy`, `BootDaemons.dfy`, `BootOutcome.dfy` | theorems about every boot |

Operations that change state are methods. Each is proved equal to a specification function (a fold, a plan, a step of
a transition system), and the laws are lemmas about those functions. A boot asks the machine for a sequence of actions,
its plan, and the methods of `Daemon.dfy` and `Boot.dfy` link the program to it, up to `Boot.BootNvrc`;
`System.RunFollowsScript` says how a run relates to a plan when any action may fail. The outcome of each
command, system call, wait and child status comes from an oracle, and what NVRC reads (command line, PCI,
InfiniBand and block devices, stock configuration) is an arbitrary `World`, so theorems about `BootRun(w, replies)`
hold for every hardware, every input and every failure.

Main results:

* `Kmsg.ReadyInExactlyPass`, `Kmsg.NoFalseReadiness`, `Kmsg.WaitEnds`: the readiness handshake is exact under
  concurrency, reports no marker that no single datagram carried unless an append was cut within a record, and ends
  within a stated number of passes under any faults. `Kmsg.CutForgesExactly` says exactly which cuts forge a marker.
* `ConfigFile.UpdateTwice`, `ConfigFile.IdempotentExactly`, `ConfigFile.RoundTripExactly`, `ConfigFile.UpdateIsRead`:
  the updater composes like overriding maps, and exactly when it is idempotent and when its text reads back.
* `BootOutcome.BootsExactly`: exactly which inputs a boot accepts, in terms of the command line, the devices and their
  files. `BootSafety.DaemonsAreChecked`,
  `BootSafety.NothingLoadsAfterLockdown`, `BootFabric.FabricIsConfigured`, `BootFabric.SubnetComesFirst`,
  `BootFabric.NvLinkStaysOnWithFabric`, `BootMounts.MountsAreMeasured`, `BootMounts.ModulesFromExtension`,
  `BootReadiness.WaitsWereAnnounced`: what every boot keeps.
* `BootDaemons.LaunchedInOrder`: what a successful boot runs and starts, in order.
* `Extensions.CommandLineRoundTrip`, `ExtensionMounts.FailClosed`, `ExtensionMounts.TargetBelowBaseExactly`: the
  extension pipeline.
* `KernelParams.NeighboursCommute`, `KernelParams.FailsExactly`, `Infiniband.ChoosesLeast`,
  `Infiniband.GuidIsLowHalfExactly`: order, failure, selection and arithmetic.

Where documentation and code differ, the model follows the code:

* The repository's `README.md:54-55` draws the kata-agent as the forked process and NVRC as the one that stays; in
  `src/kata_agent.rs:89-96` the parent becomes the kata-agent and the child drains syslog.
* Its `README.md:75-94` lists `nvrc.mode`, `nvrc.fm.mode` and `nvrc.fm.rail.policy`; `src/kernel_params.rs:39-49` ignores
  them (`KernelParams.OtherKeysIgnored`).
* `src/infiniband.rs:57` says that a port with its subnet manager disabled cannot be managed; a malformed or oversized
  mask nevertheless counts as enabled (`Infiniband.SmDisabledExactly`, `Infiniband.OversizedMaskEnabled`).
* `src/kmsg.rs:85` and `src/syslog.rs:102` speak of daemons that signal readiness; any datagram with the marker, however old,
  ends a wait (`BootReadiness.OldMarkerExactly`).
* `src/config.rs:12` promises that existing keys are updated in place. With arbitrary keys this can fail: a key with leading
  white space is never found again, and the line of a key such as `A=B` is taken for one of `A` where `A` comes first in
  the list (`ConfigFile.LeadingWhitespaceBreaks`, `ConfigFile.EqualsInKeyBreaks`); a lone `A=B` is fine. Exactly the lists
  of `ConfigFile.IdempotentExactly` settle. NVRC's only caller passes the two fixed plain keys of
  `src/daemon.rs:144-147`, which do (`Daemon.FabricUpdateIsIdempotent`).

## Model

| member | source | states |
|---|---|---|
| `Syslog.SyslogSink.PollSocket` | src/syslog.rs:44-67 | takes at most the first queued datagram and returns what is left of its first 4096 characters without the blanks at the end and without a leading `<...>`; on a failed poll the queue is untouched |
| `Syslog.ReceivedBody` | src/syslog.rs:62-66 | `<pri>body` and blanks are received as `body`, and so is a body without a tag |
| `Syslog.ReceivedBeginning` | src/syslog.rs:62-65 | a longer datagram is received as its first 4096 characters |
| `Syslog.SyslogSink.ForwardMessage` | src/syslog.rs:104-124 | appends the message and a newline, or, when the append stops early, a beginning of that; the file is never rewritten |
| `Syslog.SyslogSink.TryPoll` | src/syslog.rs:80-99 | one call is one drain step of the transition system, for every fault |
| `Syslog.SyslogSink.SyslogLoop` | src/kata_agent.rs:72-78 | the child's bounded loop is the run of two drains per second, interleaved with arrivals |
| `Syslog.LoopDrains` | src/kata_agent.rs:73-77 | a loop over n half seconds drains exactly n times |
| `Syslog.Conservation` | src/syslog.rs:86-124 | in every reachable state without cut appends, messages sent = forwarded ++ queued, in order; the file is the concatenation of the forwarded records; each drain moves at most one |
| `Syslog.BacklogForwarded` | src/syslog.rs:69-99 | without faults k drains forward at least the first k messages of the backlog: the file is the rendering of a beginning, that much longer, of all messages sent, and the queue is the rest |
| `Syslog.HarmlessKeepsWhole` | src/syslog.rs:104-118 | as long as no append is cut within a record, the file is the rendering of whole messages that were sent |
| `Syslog.RenderTerminated` | src/syslog.rs:117-118 | what has been forwarded is empty or ends in a newline, and has at least one line per message |
| `Syslog.StripPriorityExactly` | src/syslog.rs:139-143 | a leading `<...>` goes up to the first `>`, any other message stays as it is |
| `Syslog.ReceiveIsPart` | src/syslog.rs:62-66 | normalising a datagram adds nothing: text found in the message is found in the datagram's first 4096 bytes |
| `Syslog.MarkerInOneMessage` | src/syslog.rs:104-118 | a newline-free text found in the file lies within one forwarded message |
| `Kmsg.LogReader.constructor` | src/kmsg.rs:51-83 | reading starts at offset 0, not at the end of the file |
| `Kmsg.LogReader.ReadLine` | src/kmsg.rs:97-98 | returns the unread text up to and with its first newline, and advances by it |
| `Kmsg.WaitForMarker` | src/kmsg.rs:88-111 | the polling loop, its clock and its sleeps are the scan that the theorems are about, beside any schedule; ready no later than the timeout in seconds after the start, timed out only later |
| `Kmsg.NoFalseReadiness` | src/kmsg.rs:88-111 | unless an append is cut within a record, a wait that ends ready had its marker from one datagram; if none sent before carried it, from one sent during the wait |
| `Kmsg.CutForgesExactly` | src/syslog.rs:117-118 | appends that stop after k characters can make a wait end ready on a marker that no datagram carried if and only if 1 <= k <= 4096, and then a single one suffices |
| `Kmsg.PassReadsFirst` | src/kmsg.rs:92-104 | a smooth pass reads the first pending line and keeps the rest and the arrivals pending, in order: one drain per pass suffices |
| `Kmsg.ReadyInExactlyPass` | src/kmsg.rs:92-110 | if line j of the pending text is the first with the marker, the wait ends in pass j + 1 without sleeping, whatever daemons send meanwhile |
| `Kmsg.ReadyAfterArrival` | src/kmsg.rs:92-110 | whenever in a wait a datagram with the marker is queued, the wait ends ready within as many passes as lines are pending then and without any further sleep, if those go smoothly and in time |
| `Kmsg.SleepsBound` | src/kmsg.rs:89-99 | every sleep uses up half a second before the deadline |
| `Kmsg.EndsInTime` | src/kmsg.rs:89-103 | ready only by the deadline, timed out only after it |
| `Kmsg.IdleWaitTimesOut` | src/kmsg.rs:89-99 | a wait in which nothing happens sleeps exactly 2T + 1 times, half a second each, and then times out |
| `Kmsg.SleepTakes` | src/kmsg.rs:98-108 | with nothing to read, or nothing that can be read, a pass in time sleeps half a second or more |
| `Kmsg.SeesWholeLines` | src/kmsg.rs:92-104 | the loop only ever sees whole-line beginnings of the final file |
| `Kmsg.WaitEnds` | src/kmsg.rs:88-110 | under any faults: at most 2T + 1 sleeps, and at most as many passes as lines to read, cut appends, one for a line open before, and 2T + 2; a longer schedule sees the wait end |
| `Kmsg.WholeLinesRead` | src/kmsg.rs:92-104 | in a relay that loses nothing, what was read is a whole-line prefix in which only the last line can have the marker |
| `ConfigFile.UpdateExisting` | src/config.rs:16-30 | the nested loops rewrite each line by its first matching update, keep the others, and collect exactly the matched keys |
| `ConfigFile.FindUpdate` | src/config.rs:22-28 | the inner loop stops at the first update whose key and `=` start the trimmed line |
| `ConfigFile.AddMissing` | src/config.rs:32-38 | appends the updates whose key was not found, in order |
| `ConfigFile.UpdateConfigFile` | src/config.rs:13-42 | the text written is the updated line list joined with newlines and closed by one |
| `ConfigFile.UnclosedTextRead` | src/config.rs:16 | a last line without a newline is read whole |
| `ConfigFile.UnclosedFileSameUpdate` | src/config.rs:13-42 | a newline at the end of the file makes no difference to an update |
| `ConfigFile.CrlfTextRead` | src/config.rs:16 | lines closed by a carriage return and a newline are read without both, and one carriage return only is dropped |
| `ConfigFile.EmptyFileBecomesNewline` | src/config.rs:40 | a file without lines, updated by nothing, becomes a newline |
| `ConfigFile.OnlyItsKeyMatches` | src/config.rs:21-23 | a line matches a `=`-free key exactly when that is the text before its first `=`: two such keys cannot both match |
| `ConfigFile.OwnLineMatches` | src/config.rs:23-24 | a written line matches its own key exactly when the key has no leading white space |
| `ConfigFile.UpdateLineIsPut` | src/config.rs:20-30 | scanning updates in order is a map look-up by the line's key |
| `ConfigFile.UpdateTwice` | src/config.rs:13-42 | updating by u1 and then by u2 gives the same lines as one update by u1 overridden by u2 |
| `ConfigFile.IdempotentExactly` | src/config.rs:13-42 | for any list with any keys: idempotent on every file if and only if each written line is taken for an update that writes the same line, and for the very update where that is the first with its key |
| `ConfigFile.PlainIdempotentExactly` | src/config.rs:13-42 | a list of plain keys is idempotent on every file if and only if it gives no key two values |
| `ConfigFile.OneUpdateIdempotentExactly` | src/config.rs:13-42 | a single update, with any key, is idempotent on every file if and only if its key has no leading white space |
| `ConfigFile.LeadingWhitespaceBreaks` | src/config.rs:22-28 | in any list a key with leading white space is appended anew at every update |
| `ConfigFile.EqualsInKeyBreaks` | src/config.rs:22-28 | in any list a key that first occurs after another and continues that one with `=` is taken for it at the next update |
| `ConfigFile.UpdatedLinesHoldValue` | src/config.rs:20-30 | after an update every line with an updated key holds exactly the new value |
| `ConfigFile.UpdatedKeysOccur` | src/config.rs:32-38 | the keys of the result are the old ones and the updated ones |
| `ConfigFile.OtherLinesKept` | src/config.rs:20-38 | lines without an updated key keep their text and order |
| `ConfigFile.RoundTripExactly` | src/config.rs:16-40 | written text splits into the same lines exactly when there is a line and none has a newline or ends in a carriage return |
| `ConfigFile.UpdateTextTwice` | src/config.rs:13-42 | for a file of clean lines and clean assignments, with something to write, the composition law holds for bytes |
| `ConfigFile.UpdateTextIdempotent` | src/config.rs:13-42 | for such a file and a consistent list a second update writes the same bytes |
| `ConfigFile.UpdateKeepsClean` | src/config.rs:20-40 | clean lines and clean assignments give clean lines |
| `ConfigFile.UpdateIsRead` | src/config.rs:13-42 | whatever the file held, who reads the written text line by line finds each updated key with its new value only |
| `Topology.BuildArgs` | src/modprobe.rs:18-29 | the four argument lists: directory, module and NVLink option in this order, each exactly when called for |
| `Topology.KindOfPrinted` | src/mode.rs:99-125 | by what the kernel prints: NVIDIA's devices are NVSwitches by class 0x0680 and GPUs by class 0x03 |
| `Topology.BridgeOfPrinted` | src/mode.rs:130-146 | a bridge is Mellanox's with SW_MNG anywhere in its vital product data |
| `Topology.UnreadableIsNothing` | src/mode.rs:99-146 | what cannot be read is not counted |
| `Topology.CountUnordered` | src/mode.rs:99-146 | a count does not depend on the order of the directory |
| `Topology.DetectUnordered` | src/mode.rs:31-97 | neither mode nor module arguments depend on it |
| `Topology.CountsAreDisjoint` | src/mode.rs:99-146 | the three counters together count no device twice |
| `Topology.ModeMeans` | src/mode.rs:41-96 | accepted exactly with no fabric, four switches or four bridges, and beside those no or eight GPUs; gpu mode exactly with GPUs, service VM exactly with a fabric and none |
| `Topology.NvLinkOffExactly` | src/modprobe.rs:10-43 | the NVLink option is passed exactly for the nvidia module of a single GPU |
| `Topology.NvLinkStaysOn` | src/modprobe.rs:10-43 | in a topology accepted with switches or bridges no load passes it |
| `KernelParams.TryProcessKernelParams` | src/kernel_params.rs:31-52 | the loop over the words, with its early return, is the fold; an unreadable command line changes nothing |
| `KernelParams.ProcessInSequence` | src/kernel_params.rs:38-51 | processing two command lines joined by white space is processing one after the other |
| `KernelParams.LastWins` | src/kernel_params.rs:38-51 | after success each setting is the parse of its last occurrence, or unchanged |
| `KernelParams.FailsExactly` | src/kernel_params.rs:38-51 | fails if and only if a clock or power value is no u32 numeral or one of the log writes asked for fails |
| `KernelParams.NeighboursCommute` | src/kernel_params.rs:38-50 | neighbours with different keys may be swapped anywhere: same result, or both orders fail |
| `KernelParams.OtherKeysIgnored` | src/kernel_params.rs:39-49 | unknown keys, among them three documented ones, change nothing wherever they stand |
| `KernelParams.BooleanExactly` | src/kernel_params.rs:8-17 | "on", "true", "1" and "yes" in any case are true, everything else is false |
| `KernelParams.SmiGetsTheNumber` | src/smi.rs:19-42 | the decimal given to nvidia-smi denotes the same number as the last value on the command line |
| `Numerals.ParseOfDecimal` | src/guest_extension_image.rs:170-189 | parsing a printed number gives it back |
| `Numerals.ParseExactly` | src/kernel_params.rs:91-93 | a number is parsed exactly from a run of digits, with or without one plus sign, whose value is below the limit |
| `Infiniband.DetectPortGuid` | src/infiniband.rs:22-55 | the sorted scan with its skips, early return and panics is the first offer in name order |
| `Infiniband.LeExactly` | src/infiniband.rs:37 | the order of names: a beginning first, else the smaller character at the first difference |
| `Infiniband.ChoosesLeast` | src/infiniband.rs:36-54 | a GUID is chosen exactly when the least-named qualifying device offers it; none exactly when no device qualifies |
| `Infiniband.DirectoryOrderIrrelevant` | src/infiniband.rs:27-37 | the choice does not depend on the order of the directory |
| `Infiniband.DetectsExactly` | src/infiniband.rs:22-55 | a GUID is detected if and only if some device has an enabled subnet manager and a GID of eight groups |
| `Infiniband.SmDisabledExactly` | src/infiniband.rs:58-65 | disabled exactly when unreadable, or a numeral below 2^32 whose third-lowest hexadecimal digit has its 4-bit set |
| `Infiniband.OversizedMaskEnabled` | src/infiniband.rs:62-64 | a printed mask of 2^32 or more counts as enabled, whatever its bit 10 |
| `Infiniband.OversizedMaskExample` | src/infiniband.rs:62-64 | `0x100000400` has bit 10 set and counts as enabled |
| `Infiniband.PrintedMask` | src/infiniband.rs:62-63 | what the kernel prints is read as its digits |
| `Infiniband.HexPrefixDropped` | src/infiniband.rs:62 | "0x" is dropped as often as it stands at the beginning |
| `Numerals.DigitsExactly` | src/infiniband.rs:63 | the hexadecimal and decimal digits have their usual values, in either case |
| `Numerals.DigitIsInTable` | src/infiniband.rs:63 | and nothing else is a digit |
| `Infiniband.GuidIsLowHalfExactly` | src/infiniband.rs:68-78 | for eight groups of one to four digits the GUID denotes the GID mod 2^64 if and only if running the last four together loses no zeros |
| `Infiniband.FullWidthGuid` | src/infiniband.rs:68-78 | for full-width groups it always does |
| `Extensions.ParseVerityParams` | src/guest_extension_image.rs:135-174 | the loop accepts exactly well-formed numbers, takes the last occurrence of each field, and requires all five with non-zero numbers |
| `Extensions.ParsesExactly` | src/guest_extension_image.rs:135-174 | accepted if and only if all five fields occur, every number that occurs is a u64 numeral and the last of each is not zero |
| `Extensions.ParamsExactly` | src/guest_extension_image.rs:121-132 | a command line is accepted if and only if each of its extension values is |
| `Extensions.ExtensionNameExactly` | src/guest_extension_image.rs:126-128 | a key names an extension exactly when it is `kata.extension.`, the name, and `.verity_params` |
| `Extensions.ParsedIsSeparable` | src/guest_extension_image.rs:142-167 | whatever is accepted has comma-free strings and non-zero numbers |
| `Extensions.VerityRoundTripExactly` | src/guest_extension_image.rs:135-174 | rendered parameters read back unchanged if and only if they have comma-free strings and non-zero numbers |
| `Extensions.CommandLineRoundTrip` | src/guest_extension_image.rs:121-132 | any list of extensions rendered among unrelated words is read back in order |
| `ExtensionMounts.PlanMounts` | src/guest_extension_image.rs:65-90 | the checking loop and the plan construction are the reconciliation |
| `ExtensionMounts.FirstParamIs` | src/guest_extension_image.rs:80-83 | the parameters found are the first ones given for the name, if any |
| `ExtensionMounts.FailClosed` | src/guest_extension_image.rs:65-90 | succeeds if and only if devices and parameters name the same extensions; the plan lists every device once, in order, with its first parameters |
| `ExtensionMounts.ReconcileUnordered` | src/guest_extension_image.rs:77-89 | permuting the devices permutes the plan |
| `ExtensionMounts.PlanIsBijection` | src/guest_extension_image.rs:65-90 | with distinct names on both sides the plan pairs devices and parameters one to one |
| `ExtensionMounts.DuplicatesExactly` | src/guest_extension_image.rs:77-89 | a name is planned twice exactly when two devices carry it, and then with the same parameters |
| `ExtensionMounts.VerityArgsReadBack` | src/guest_extension_image.rs:178-197 | reading the arguments as options and positions gives back devices, name and parameters, with sha256 and without a superblock |
| `ExtensionMounts.DiscoveredExactly` | src/guest_extension_image.rs:201-225 | a device is found for each extension serial and no other; every name is valid, and one invalid name is fatal |
| `ExtensionMounts.DiscoveredInOrder` | src/guest_extension_image.rs:205-224 | devices are found in the order of the directory |
| `ExtensionMounts.SerialNames` | src/guest_extension_image.rs:208-209 | a serial names an extension exactly when it reads, between blanks, `extension-` and the name |
| `ExtensionMounts.ValidNameExactly` | src/guest_extension_image.rs:211-218 | valid names are of ASCII letters, digits, `_`, `-` and `.`, not of dots alone |
| `ExtensionMounts.FindPartitions` | src/guest_extension_image.rs:229-253 | the data device is the last entry whose number reads 1, the hash device the last that reads 2, and both are needed |
| `ExtensionMounts.PartitionsDiffer` | src/guest_extension_image.rs:229-253 | data and hash device are two different device nodes |
| `ExtensionMounts.TargetBelowBaseExactly` | src/guest_extension_image.rs:100-101 | the normalised target is the base and one component if and only if the name is a proper single component |
| `ExtensionMounts.TargetsPlaced` | src/guest_extension_image.rs:54-101 | every planned extension is mounted one component below the base, different names in different places |
| `System.Machine.Do` | src/macros.rs:17-28 | a failing action ends the run for good |
| `System.RunFollowsScript` | src/lockdown.rs:26-44 | a run is a prefix of what was asked, in which only the last action can have failed or handed over |
| `Nvrc.NVRC.HealthChecks` | src/nvrc.rs:44-52 | the i-th action asked for is the probe of the i-th tracked daemon, for all of them |
| `System.SucceedsExactly` | src/nvrc.rs:46-49 | a probe passes exactly for a child that is alive, cannot be asked, or exited with code 0 |
| `Daemon.FabricConfigReads` | src/daemon.rs:142-149 | whatever the stock file says, the text written reads as this mode and this policy |
| `Daemon.FabricUpdateIsIdempotent` | src/daemon.rs:142-149 | the one list of updates that NVRC uses is idempotent on every file |
| `Boot.BootNvrc` | src/main.rs:98-127 | the program, with all its loops and branches, is the run of the boot plan: what happens is exactly what the plan says, up to the first failure |
| `BootSafety.EveryBootEnds` | src/main.rs:98-127 | every boot ends powered off after a failed action, or at the kata-agent with the whole plan done and every action successful |
| `BootSafety.FailureEndsRun` | src/nvrc.rs:46-49 | in any run a probe that finds a non-zero exit or a signal, a panic, or anything not done is the last action and powers off, and nothing else does |
| `BootSafety.NothingLoadsAfterLockdown` | src/lockdown.rs:51-54 | no module load, command or mount follows the lock-down, and no hand-over happens without it |
| `BootSafety.DaemonsAreChecked` | src/nvrc.rs:37-52 | at the hand-over every daemon was probed after its start, and each probe found it alive, not to be asked, or exited with code 0 |
| `BootFabric.FabricIsConfigured` | src/daemon.rs:97-149 | whenever the fabric manager starts, its file is the stock one updated for two keys and protected, and reads FABRIC_MODE=0 exactly in gpu mode, 1 exactly in a service VM, and the symmetric policy exactly for nvl5 |
| `BootFabric.SubnetComesFirst` | src/main.rs:79-96 | for nvl5 the subnet manager is started and found healthy before, and both get the port that detection selected |
| `BootFabric.NoSubnetForNvl4` | src/main.rs:71-75 | outside nvl5 no subnet manager is ever started and the fabric manager gets no port |
| `BootFabric.FabricStartsExactly` | src/main.rs:45-96 | a boot that hands over has started a fabric manager exactly when the topology has switches or bridges |
| `BootFabric.NoPortNoBoot` | src/main.rs:86-89 | nvl5 without a usable port always powers off |
| `BootFabric.NvLinkStaysOnWithFabric` | src/modprobe.rs:10-16 | a run that starts the fabric manager never switches NVLink off |
| `BootMounts.MountsAreMeasured` | src/guest_extension_image.rs:54-118 | in any run whatever is mounted was successfully opened before with the first parameters the command line has for its name, on the planned device's last partition 1 as data and last partition 2 as hashes |
| `BootMounts.EverythingIsMounted` | src/guest_extension_image.rs:54-90 | a hand-over happens only with the same names on both sides, and then every device is mounted |
| `BootMounts.MountedInOrder` | src/guest_extension_image.rs:58-60 | mounts are made in the order of the plan |
| `BootMounts.ModulesFromExtension` | src/gpu_extension.rs:60-68 | in any run a module is loaded from the gpu extension exactly when it is an NVIDIA module and the extension has been mounted before |
| `BootMounts.ExtensionSetUpFirst` | src/main.rs:113-116 | the extension's firmware and library cache are set up before any module is loaded |
| `BootDaemons.SetUpFirst` | src/main.rs:103-106 | in any run nothing is run, started or mounted before file systems, loopback and log are set up |
| `BootDaemons.LaunchedInOrder` | src/main.rs:45-123 | a boot that hands over has run and started exactly what topology and command line call for, each daemon once, in one stated order |
| `BootDaemons.EarlyLaunches` | src/main.rs:107-114 | before that it has run veritysetup once for each planned extension, and then ldconfig if one is the gpu extension |
| `BootDaemons.ModulesLoadedExactly` | src/main.rs:45-84 | it has loaded exactly the modules of its topology, in order |
| `BootDaemons.StartsAreAwaited` | src/daemon.rs:50-108 | in any run what follows a start of the persistence daemon or the fabric manager is the wait for its marker, of two minutes |
| `BootDaemons.HandsOverLast` | src/kata_agent.rs:29-97 | it ends with the lock-down, the fork, the limits and the kata-agent, told of the gpu extension exactly if that was mounted |
| `BootSettings.SettingsAreLatest` | src/kernel_params.rs:23-52 | a boot that hands over ran with the last value of each parameter |
| `BootSettings.ClocksAreSet` | src/smi.rs:19-42 | in gpu mode it has run nvidia-smi with the number that the last clock or power parameter denotes |
| `BootSettings.MonitorsOnDemand` | src/daemon.rs:69-93 | it has started DCGM exactly in gpu mode and when the last `nvrc.dcgm` says so |
| `BootSettings.ServiceArguments` | src/daemon.rs:15-33 | it has started the persistence daemon in UVM persistence mode unless the last parameter says no, and DCGM's daemons with their fixed arguments |
| `BootSettings.ReadyStateIsSet` | src/smi.rs:48-53 | in gpu mode it has set the ready state asked for and generated the CDI specification |
| `BootOutcome.HandsOverExactly` | src/execute.rs:12-40 | the kata-agent is reached if and only if every action of the plan succeeds |
| `BootReadiness.MarkerWasSent` | src/kmsg.rs:88-111 | from boot on, a wait that ended ready had its marker from some datagram; and for every moment before the wait, such as the daemon's start, if nothing sent up to then has the marker, something sent since then carried it |
| `BootReadiness.OldMarkerExactly` | src/kmsg.rs:51-111 | a smooth wait during which nothing is sent ends ready if and only if the marker was sent at any time before, even before the daemon's start |
| `BootReadiness.WaitsWereAnnounced` | src/daemon.rs:50-57 | so for every wait that any run got past, of either daemon and also in runs that fail later |
| `BootReadiness.PersistencedWasAnnounced` | src/daemon.rs:50-65 | a boot in gpu mode that hands over has started the persistence daemon and right after that waited until some datagram carried its marker, one sent since the start if none up to then has it; the sender is not known |
| `BootOutcome.PlannedExactly` | src/guest_extension_image.rs:54-90 | mounts are planned if and only if all extension values are accepted, all serials carry valid names, and both sides name the same extensions |
| `BootOutcome.PanicsExactly` | src/main.rs:98-127 | the plan is free of panics if and only if the inputs are in order: numerals and log writes, extension values, serials, names and partitions, device counts and a qualifying port |
| `BootOutcome.BootsExactly` | src/main.rs:98-127 | when the rest of the system behaves, the kata-agent is reached exactly for these inputs; otherwise never for others |

## Left out

- Mounts, ioctls, sysctl writes, fork, exec, rlimits, reboot: each is an action that the oracle lets succeed or fail; a
  few that only have to succeed (the base mounts, the socket buffer sizes, the first syslog poll) are one action each.
- A power-off that itself fails, and running as another process than PID 1 (`src/init.rs`).
- Real files: the log file is a growing text, and what NVRC reads stays the same during a boot, so a PCI, block or
  InfiniBand device that appears meanwhile is not covered.
- `Boot.BootNvrc`: takes the outcome of a wait for a marker from the oracle; `BootReadiness.WaitsWereAnnounced` says what
  follows when `Kmsg.WaitForMarker` is what answers.
- `BootReadiness.PersistencedWasAnnounced`: does not say that the daemon itself was ready. The relay knows no senders, and a
  wait reads the log from its beginning, so an old datagram or one from another daemon ends it as well
  (`BootReadiness.OldMarkerExactly`).
- `Kmsg.WaitForMarker`: stops with its schedule, which is finite; the theorems are for all schedules, and a long enough
  one sees the wait end.
- `Kmsg.NoFalseReadiness`: does not cover appends that are cut within a record, after 1 to 4096 characters; for each such
  length it is false (`Kmsg.CutForgesExactly`).
- UTF-8 decoding of datagrams and `BufReader` internals: datagrams and the log are ASCII text, the reader an offset.
- `O_NONBLOCK` and the kinds of read errors: a failing read of any kind sleeps, as in the code.
- SHA-256, version strings and `/proc/self/exe` hashing beyond its success (`src/hash.rs`).
- `src/gpu_extension.rs` path building beyond the arguments that name it; programs are named, not located.
- Log levels and messages; `nvrc.log` counts as one write that may fail.
- Which panic message is printed; parsers of the extension module return none where NVRC panics.
- Features that ARCHITECTURE.md describes and the code does not have: seccomp, SBOM auditing, attestation.
