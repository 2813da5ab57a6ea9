/** src/guest_extension_image.rs, continued: reconciling devices with parameters, and where they are mounted.
    Where NVRC panics, the result here is None. */
module ExtensionMounts {
  import opened Text
  import opened Bags
  import opened Numerals
  import opened Extensions

  /** An extension's name and the block device that carries it. */
  type Device = (string, string)

  datatype Mount = Mount(name: string, dev: string, verity: VerityParams)

  // ---------- Reconciliation ----------

  function Names<T(==)>(s: seq<(string, T)>): set<string> {
    set p <- s :: p.0
  }

  /** The first parameters given for a name. */
  function FirstParam(params: seq<Param>, name: string): Option<VerityParams> {
    if params == [] then None
    else if params[0].0 == name then Some(params[0].1)
    else FirstParam(params[1..], name)
  }

  function PlanOf(params: seq<Param>, devices: seq<Device>): Option<seq<Mount>> {
    if devices == [] then Some([])
    else
      var verity, rest := FirstParam(params, devices[0].0), PlanOf(params, devices[1..]);
      if verity == None || rest == None then None
      else Some([Mount(devices[0].0, devices[0].1, verity.value)] + rest.value)
  }

  /** Fail closed: every device needs parameters and all parameters need a device. */
  function Reconcile(params: seq<Param>, devices: seq<Device>): Option<seq<Mount>> {
    if Names(params) <= Names(devices) then PlanOf(params, devices) else None
  }

  method PlanMounts(params: seq<Param>, devices: seq<Device>) returns (plan: Option<seq<Mount>>)
    ensures plan == Reconcile(params, devices)
  {
    for i := 0 to |params|
      invariant forall j :: 0 <= j < i ==> params[j].0 in Names(devices)
    {
      if !(exists d <- devices :: d.0 == params[i].0) {
        assert params[i].0 in Names(params) && params[i].0 !in Names(devices);
        return None;
      }
    }
    plan := PlanOf(params, devices);
  }

  lemma {:induction false} FirstParamIs(params: seq<Param>, name: string)
    ensures FirstParam(params, name) == None <==> name !in Names(params)
    ensures forall v :: FirstParam(params, name) == Some(v) <==>
              exists i :: 0 <= i < |params| && params[i] == (name, v) && name !in Names(params[..i])
  {
    if params != [] {
      FirstParamIs(params[1..], name);
      NamesCons(params);
      if params[0].0 == name {
        assert params[0] == (name, params[0].1) && name !in Names(params[..0]);
        forall i | 0 < i < |params| ensures name in Names(params[..i]) {
          assert params[..i][0] == params[0];
        }
      } else {
        forall i | 0 < i < |params| ensures name in Names(params[..i]) <==> name in Names(params[1..][..i - 1]) {
          NamesCons(params[..i]);
          assert params[..i][1..] == params[1..][..i - 1];
        }
        forall v, i | 0 <= i < |params| - 1 && params[1..][i] == (name, v) && name !in Names(params[1..][..i])
          ensures params[i + 1] == (name, v) && name !in Names(params[..i + 1])
        {
        }
        forall v, i | 0 <= i < |params| && params[i] == (name, v) && name !in Names(params[..i])
          ensures i > 0 && params[1..][i - 1] == (name, v) && name !in Names(params[1..][..i - 1])
        {
        }
      }
    }
  }

  lemma NamesCons<T>(s: seq<(string, T)>)
    requires s != []
    ensures Names(s) == {s[0].0} + Names(s[1..])
  {
    assert forall p :: p in s <==> p == s[0] || p in s[1..];
  }

  lemma {:induction false} PlanIs(params: seq<Param>, devices: seq<Device>)
    ensures PlanOf(params, devices).Some? <==> Names(devices) <= Names(params)
    ensures PlanOf(params, devices).Some? ==>
              var plan := PlanOf(params, devices).value;
              |plan| == |devices| &&
              forall i :: 0 <= i < |plan| ==>
                            plan[i].name == devices[i].0 && plan[i].dev == devices[i].1
                            && FirstParam(params, plan[i].name) == Some(plan[i].verity)
  {
    if devices != [] {
      PlanIs(params, devices[1..]);
      NamesCons(devices);
      FirstParamIs(params, devices[0].0);
    }
  }

  /** Reconciliation succeeds exactly when devices and parameters name the same extensions. The plan then has
      every device once, in order, with the first parameters given for its name. */
  lemma FailClosed(params: seq<Param>, devices: seq<Device>)
    ensures Reconcile(params, devices).Some? <==> Names(params) == Names(devices)
    ensures Reconcile(params, devices).Some? ==>
              var plan := Reconcile(params, devices).value;
              |plan| == |devices| &&
              forall i :: 0 <= i < |plan| ==>
                            plan[i].name == devices[i].0 && plan[i].dev == devices[i].1
                            && FirstParam(params, plan[i].name) == Some(plan[i].verity)
  {
    PlanIs(params, devices);
  }

  lemma {:induction false} PlanAppend(params: seq<Param>, a: seq<Device>, b: seq<Device>)
    ensures var x, y, xy := PlanOf(params, a), PlanOf(params, b), PlanOf(params, a + b);
            && (xy.Some? <==> x.Some? && y.Some?)
            && (xy.Some? ==> xy.value == x.value + y.value)
  {
    if a == [] {
      assert a + b == b;
    } else {
      assert (a + b)[1..] == a[1..] + b;
      PlanAppend(params, a[1..], b);
    }
  }

  lemma {:induction false} PlanUnordered(params: seq<Param>, a: seq<Device>, b: seq<Device>)
    requires multiset(a) == multiset(b)
    ensures PlanOf(params, a).Some? <==> PlanOf(params, b).Some?
    ensures PlanOf(params, a).Some? ==> multiset(PlanOf(params, a).value) == multiset(PlanOf(params, b).value)
    decreases |a|
  {
    if a == [] {
      EmptyBag(b);
    } else {
      HeadFirst(a);
      var i := Occurrence(b, a[0], a[1..]);
      PlanUnordered(params, a[1..], b[..i] + b[i + 1..]);
      Without(b, i);
      PlanAppend(params, b[..i], b[i + 1..]);
      PlanAppend(params, b[..i], [b[i]] + b[i + 1..]);
      PlanAppend(params, [b[i]], b[i + 1..]);
      PlanAppend(params, [a[0]], a[1..]);
      assert a == [a[0]] + a[1..];
    }
  }

  /** Permuting the devices permutes the plan. */
  lemma ReconcileUnordered(params: seq<Param>, a: seq<Device>, b: seq<Device>)
    requires multiset(a) == multiset(b)
    ensures Reconcile(params, a).Some? <==> Reconcile(params, b).Some?
    ensures Reconcile(params, a).Some? ==> multiset(Reconcile(params, a).value) == multiset(Reconcile(params, b).value)
  {
    PlanUnordered(params, a, b);
    forall n ensures n in Names(a) <==> n in Names(b) {
      assert forall d :: d in a <==> d in multiset(a);
      assert forall d :: d in b <==> d in multiset(b);
    }
    assert Names(a) == Names(b);
  }

  predicate Distinct<T>(s: seq<(string, T)>) {
    forall i, j :: 0 <= i < j < |s| ==> s[i].0 != s[j].0
  }

  /** With distinct names on both sides the plan pairs devices and parameters one to one. */
  lemma PlanIsBijection(params: seq<Param>, devices: seq<Device>)
    requires Reconcile(params, devices).Some? && Distinct(params) && Distinct(devices)
    ensures var plan := Reconcile(params, devices).value;
            && (forall j :: 0 <= j < |params| ==>
                  exists i :: 0 <= i < |plan| && plan[i].name == params[j].0 && plan[i].verity == params[j].1)
            && (forall i, k :: 0 <= i < k < |plan| ==> plan[i].name != plan[k].name)
    ensures |params| == |devices|
  {
    FailClosed(params, devices);
    var plan := Reconcile(params, devices).value;
    forall j | 0 <= j < |params|
      ensures exists i :: 0 <= i < |plan| && plan[i].name == params[j].0 && plan[i].verity == params[j].1
    {
      assert params[j].0 in Names(devices);
      var i :| 0 <= i < |devices| && devices[i].0 == params[j].0;
      FirstParamIs(params, plan[i].name);
      var k :| 0 <= k < |params| && params[k] == (plan[i].name, plan[i].verity);
      assert k == j;
    }
    DistinctCount(params);
    DistinctCount(devices);
  }

  lemma {:induction false} DistinctCount<T>(s: seq<(string, T)>)
    requires Distinct(s)
    ensures |Names(s)| == |s|
  {
    if s != [] {
      DistinctCount(s[1..]);
      NamesCons(s);
      assert s[0].0 !in Names(s[1..]);
    }
  }

  /** Device names are not checked for duplicates: a name occurs twice in the plan exactly when two devices
      carry it, and both are then given the same parameters and the same mount target. */
  lemma DuplicatesExactly(params: seq<Param>, devices: seq<Device>)
    requires Reconcile(params, devices).Some?
    ensures var plan := Reconcile(params, devices).value;
            && (Distinct(devices) <==> forall i, j :: 0 <= i < j < |plan| ==> plan[i].name != plan[j].name)
            && (forall i, j :: 0 <= i < j < |plan| && plan[i].name == plan[j].name ==> plan[i].verity == plan[j].verity)
  {
    FailClosed(params, devices);
  }

  // ---------- The arguments of veritysetup ----------

  function VerityArgs(dmName: string, data: string, hash: string, p: VerityParams): seq<string> {
    ["open", "--no-superblock", "--hash", "sha256", "--data-block-size", Decimal(p.dataBlockSize),
     "--hash-block-size", Decimal(p.hashBlockSize), "--data-blocks", Decimal(p.dataBlocks),
     "--salt", p.salt, data, dmName, hash, p.rootHash]
  }

  datatype Opened = Opened(dmName: string, data: string, hash: string, params: VerityParams,
                           algorithm: string, noSuperblock: bool)

  datatype Options = Options(dataBlockSize: string, hashBlockSize: string, dataBlocks: string, salt: string,
                             algorithm: string, noSuperblock: bool)

  const NO_OPTIONS := Options("", "", "", "", "", false)

  /** A decoder of the argument layout above: options with a value, a flag, and then, from the first argument that is
      no option, exactly data device, name, hash device and root hash. */
  function ReadArgs(args: seq<string>, o: Options): Option<Opened>
    decreases |args|
  {
    if |args| > 1 && args[0] == "--no-superblock" then ReadArgs(args[1..], o.(noSuperblock := true))
    else if |args| > 2 && args[0] == "--hash" then ReadArgs(args[2..], o.(algorithm := args[1]))
    else if |args| > 2 && args[0] == "--data-block-size" then ReadArgs(args[2..], o.(dataBlockSize := args[1]))
    else if |args| > 2 && args[0] == "--hash-block-size" then ReadArgs(args[2..], o.(hashBlockSize := args[1]))
    else if |args| > 2 && args[0] == "--data-blocks" then ReadArgs(args[2..], o.(dataBlocks := args[1]))
    else if |args| > 2 && args[0] == "--salt" then ReadArgs(args[2..], o.(salt := args[1]))
    else if |args| != 4 then None
    else
      match (ParseU64(o.dataBlocks), ParseU64(o.dataBlockSize), ParseU64(o.hashBlockSize))
      case (Some(blocks), Some(blockSize), Some(hashSize)) =>
        Some(Opened(args[1], args[0], args[2], VerityParams(args[3], o.salt, blocks, blockSize, hashSize),
                    o.algorithm, o.noSuperblock))
      case _ => None
  }

  /** The parameters reach veritysetup unharmed, with the hash algorithm and without a superblock. */
  lemma VerityArgsReadBack(dmName: string, data: string, hash: string, p: VerityParams)
    requires "/dev/" <= data
    ensures var args := VerityArgs(dmName, data, hash, p);
            && args[0] == "open"
            && ReadArgs(args[1..], NO_OPTIONS) == Some(Opened(dmName, data, hash, p, "sha256", true))
  {
    var plain := NO_OPTIONS.(noSuperblock := true);
    var o0 := plain.(algorithm := "sha256");
    var o1 := o0.(dataBlockSize := Decimal(p.dataBlockSize));
    var o2 := o1.(hashBlockSize := Decimal(p.hashBlockSize));
    var o3 := o2.(dataBlocks := Decimal(p.dataBlocks));
    var a5 := [data, dmName, hash, p.rootHash];
    var a4 := ["--salt", p.salt] + a5;
    var a3 := ["--data-blocks", Decimal(p.dataBlocks)] + a4;
    var a2 := ["--hash-block-size", Decimal(p.hashBlockSize)] + a3;
    var a1 := ["--data-block-size", Decimal(p.dataBlockSize)] + a2;
    var a0 := ["--hash", "sha256"] + a1;
    assert VerityArgs(dmName, data, hash, p) == ["open"] + (["--no-superblock"] + a0);
    ReadSuperblock(a0, NO_OPTIONS);
    ReadHash(a1, plain);
    ReadDataBlockSize(Decimal(p.dataBlockSize), a2, o0);
    ReadHashBlockSize(Decimal(p.hashBlockSize), a3, o1);
    ReadDataBlocks(Decimal(p.dataBlocks), a4, o2);
    ReadSalt(p.salt, a5, o3);
    Positionals(data, dmName, hash, p.rootHash, o3.(salt := p.salt));
    ParseOfDecimal(p.dataBlocks, U64_LIMIT);
    ParseOfDecimal(p.dataBlockSize, U64_LIMIT);
    ParseOfDecimal(p.hashBlockSize, U64_LIMIT);
  }

  lemma TwoFirst(a: string, b: string, rest: seq<string>)
    ensures ([a, b] + rest)[0] == a && ([a, b] + rest)[1] == b && ([a, b] + rest)[2..] == rest
  {
  }

  lemma ReadSuperblock(rest: seq<string>, o: Options)
    requires rest != []
    ensures ReadArgs(["--no-superblock"] + rest, o) == ReadArgs(rest, o.(noSuperblock := true))
  {
    assert (["--no-superblock"] + rest)[1..] == rest;
  }

  lemma ReadHash(rest: seq<string>, o: Options)
    requires rest != []
    ensures ReadArgs(["--hash", "sha256"] + rest, o) == ReadArgs(rest, o.(algorithm := "sha256"))
  {
    TwoFirst("--hash", "sha256", rest);
    assert "--hash" != "--no-superblock";
  }

  lemma ReadDataBlockSize(v: string, rest: seq<string>, o: Options)
    requires rest != []
    ensures ReadArgs(["--data-block-size", v] + rest, o) == ReadArgs(rest, o.(dataBlockSize := v))
  {
    TwoFirst("--data-block-size", v, rest);
  }

  lemma ReadHashBlockSize(v: string, rest: seq<string>, o: Options)
    requires rest != []
    ensures ReadArgs(["--hash-block-size", v] + rest, o) == ReadArgs(rest, o.(hashBlockSize := v))
  {
    TwoFirst("--hash-block-size", v, rest);
    assert |"--hash-block-size"| != |"--hash"|;
  }

  lemma ReadDataBlocks(v: string, rest: seq<string>, o: Options)
    requires rest != []
    ensures ReadArgs(["--data-blocks", v] + rest, o) == ReadArgs(rest, o.(dataBlocks := v))
  {
    TwoFirst("--data-blocks", v, rest);
    assert |"--data-blocks"| != |"--data-block-size"|;
  }

  lemma ReadSalt(v: string, rest: seq<string>, o: Options)
    requires rest != []
    ensures ReadArgs(["--salt", v] + rest, o) == ReadArgs(rest, o.(salt := v))
  {
    TwoFirst("--salt", v, rest);
    assert "--salt" != "--hash";
  }

  lemma Positionals(data: string, dmName: string, hash: string, rootHash: string, o: Options)
    requires "/dev/" <= data
    ensures var blocks, blockSize := ParseU64(o.dataBlocks), ParseU64(o.dataBlockSize);
            var hashSize := ParseU64(o.hashBlockSize);
            blocks.Some? && blockSize.Some? && hashSize.Some? ==>
              ReadArgs([data, dmName, hash, rootHash], o)
              == Some(Opened(dmName, data, hash,
                             VerityParams(rootHash, o.salt, blocks.value, blockSize.value, hashSize.value),
                             o.algorithm, o.noSuperblock))
  {
    assert data[0] == '/';
    assert "--no-superblock"[0] == "--hash"[0] == "--data-block-size"[0] == "--hash-block-size"[0]
           == "--data-blocks"[0] == "--salt"[0] == '-';
  }

  // ---------- Discovery ----------

  const EXTENSION_PREFIX := "extension-"

  predicate NameChar(c: char) {
    'a' <= c <= 'z' || 'A' <= c <= 'Z' || '0' <= c <= '9' || c == '_' || c == '-' || c == '.'
  }

  predicate ValidName(name: string) {
    name != "" && !(forall c <- name :: c == '.') && forall c <- name :: NameChar(c)
  }

  /** An entry of /sys/block and its serial, if that can be read. */
  type Block = (string, Option<string>)

  function SerialName(serial: Option<string>): Option<string> {
    if serial.Some? && EXTENSION_PREFIX <= Trim(serial.value) then Some(Trim(serial.value)[|EXTENSION_PREFIX|..])
    else None
  }

  function DevicesOf(blocks: seq<Block>): Option<seq<Device>> {
    if blocks == [] then Some([])
    else
      var name, rest := SerialName(blocks[0].1), DevicesOf(blocks[1..]);
      if name == None then rest
      else if !ValidName(name.value) || rest == None then None
      else Some([(name.value, blocks[0].0)] + rest.value)
  }

  /** An unreadable /sys/block has no extensions. */
  function Discover(blocks: Option<seq<Block>>): Option<seq<Device>> {
    if blocks.Some? then DevicesOf(blocks.value) else Some([])
  }

  /** A device is found for each extension serial and for nothing else, and every name is valid; one invalid
      name is fatal. */
  lemma {:induction false} DiscoveredExactly(blocks: seq<Block>)
    ensures DevicesOf(blocks).Some? <==>
              forall b <- blocks :: SerialName(b.1).Some? ==> ValidName(SerialName(b.1).value)
    ensures DevicesOf(blocks).Some? ==>
              && (forall d <- DevicesOf(blocks).value :: ValidName(d.0))
              && (forall name, dev :: (name, dev) in DevicesOf(blocks).value <==>
                    exists b <- blocks :: b.0 == dev && SerialName(b.1) == Some(name))
  {
    if blocks != [] {
      DiscoveredExactly(blocks[1..]);
      assert forall b :: b in blocks <==> b == blocks[0] || b in blocks[1..];
      if DevicesOf(blocks).Some? {
        forall name, dev
          ensures (name, dev) in DevicesOf(blocks).value <==>
            (blocks[0].0 == dev && SerialName(blocks[0].1) == Some(name)) || (name, dev) in DevicesOf(blocks[1..]).value
        {
        }
      }
    }
  }

  /** The devices are found in the order of the directory. */
  lemma {:induction false} DiscoveredInOrder(a: seq<Block>, b: seq<Block>)
    requires DevicesOf(a + b).Some?
    ensures DevicesOf(a).Some? && DevicesOf(b).Some?
    ensures DevicesOf(a + b).value == DevicesOf(a).value + DevicesOf(b).value
  {
    if a == [] {
      assert a + b == b;
    } else {
      assert (a + b)[1..] == a[1..] + b;
      DiscoveredInOrder(a[1..], b);
    }
  }

  /** A serial names an extension exactly when it reads, between blanks, "extension-" and the name. */
  lemma SerialNames(serial: Option<string>, name: string)
    ensures SerialName(serial) == Some(name) <==> serial.Some? && Trim(serial.value) == "extension-" + name
  {
    assert ("extension-" + name)[10..] == name;
    if serial.Some? && EXTENSION_PREFIX <= Trim(serial.value) {
      var t := Trim(serial.value);
      assert t == t[..10] + t[10..];
    }
  }

  /** A name is valid exactly when its characters are ASCII letters, digits, "_", "-" and ".", one at least not
      being ".". */
  lemma ValidNameExactly(name: string)
    ensures ValidName(name) <==>
              && (forall c <- name :: var n := c as int;
                    48 <= n <= 57 || 65 <= n <= 90 || 97 <= n <= 122 || n == 95 || n == 45 || n == 46)
              && exists c <- name :: c as int != 46
  {
  }

  // ---------- Partitions ----------

  /** An entry of /sys/block/<dev> and its `partition` file, if that can be read. */
  type Partition = (string, Option<string>)

  predicate Numbered(p: Partition, number: string) {
    p.1.Some? && Trim(p.1.value) == number
  }

  /** The device node of the last partition with a number. */
  function LastNumbered(entries: seq<Partition>, number: string): Option<string> {
    if entries == [] then None
    else
      var p := entries[|entries| - 1];
      if Numbered(p, number) then Some("/dev/" + p.0) else LastNumbered(entries[..|entries| - 1], number)
  }

  /** The data and the hash partition; None is a directory that cannot be read, or no such partition. */
  function Partitions(dir: Option<seq<Partition>>): Option<(string, string)> {
    if dir == None then None
    else
      match (LastNumbered(dir.value, "1"), LastNumbered(dir.value, "2"))
      case (Some(data), Some(hash)) => Some((data, hash))
      case _ => None
  }

  /** `node` is the device of the last entry whose `partition` file reads as this number. */
  predicate IsLastPartition(entries: seq<Partition>, number: string, node: string) {
    exists i :: 0 <= i < |entries| && node == "/dev/" + entries[i].0 && ReadsAs(entries[i].1, number)
                && forall j :: i < j < |entries| ==> !ReadsAs(entries[j].1, number)
  }

  predicate ReadsAs(content: Option<string>, text: string) {
    content.Some? && Trim(content.value) == text
  }

  method FindPartitions(dir: Option<seq<Partition>>) returns (r: Option<(string, string)>)
    ensures r == Partitions(dir)
    ensures r.Some? ==> && dir.Some? && IsLastPartition(dir.value, "1", r.value.0)
                        && IsLastPartition(dir.value, "2", r.value.1)
  {
    PartitionsAre(dir);
    if dir == None {
      return None;
    }
    var entries := dir.value;
    var data, hash: Option<string> := None, None;
    for i := 0 to |entries|
      invariant data == LastNumbered(entries[..i], "1") && hash == LastNumbered(entries[..i], "2")
    {
      assert entries[..i + 1][..i] == entries[..i];
      var (name, number) := entries[i];
      if number == None {
        continue;
      }
      var part := "/dev/" + name;
      match Trim(number.value)
      case "1" => data := Some(part);
      case "2" => hash := Some(part);
      case _ =>
    }
    assert entries[..|entries|] == entries;
    if data == None || hash == None {
      return None;
    }
    return Some((data.value, hash.value));
  }

  lemma {:induction false} LastNumberedIsLast(entries: seq<Partition>, number: string)
    ensures LastNumbered(entries, number).Some? ==>
              IsLastPartition(entries, number, LastNumbered(entries, number).value)
    decreases |entries|
  {
    if entries != [] {
      var n := |entries| - 1;
      var p := entries[n];
      if Numbered(p, number) {
        assert ReadsAs(p.1, number) && "/dev/" + p.0 == LastNumbered(entries, number).value;
      } else if LastNumbered(entries, number).Some? {
        LastNumberedIsLast(entries[..n], number);
        StillLast(entries[..n], p, number, LastNumbered(entries, number).value);
        assert entries[..n] + [p] == entries;
      }
    }
  }

  lemma StillLast(entries: seq<Partition>, p: Partition, number: string, node: string)
    requires IsLastPartition(entries, number, node) && !ReadsAs(p.1, number)
    ensures IsLastPartition(entries + [p], number, node)
  {
    var i :| 0 <= i < |entries| && node == "/dev/" + entries[i].0 && ReadsAs(entries[i].1, number)
             && forall j :: i < j < |entries| ==> !ReadsAs(entries[j].1, number);
    assert (entries + [p])[i] == entries[i];
  }

  /** The data device is the last partition 1 and the hash device the last partition 2. */
  lemma PartitionsAre(dir: Option<seq<Partition>>)
    ensures Partitions(dir).Some? ==>
              && dir.Some? && IsLastPartition(dir.value, "1", Partitions(dir).value.0)
              && IsLastPartition(dir.value, "2", Partitions(dir).value.1)
  {
    if dir.Some? {
      LastNumberedIsLast(dir.value, "1");
      LastNumberedIsLast(dir.value, "2");
    }
  }

  lemma {:induction false} LastNumberedIs(entries: seq<Partition>, number: string)
    ensures LastNumbered(entries, number) == None <==> forall p <- entries :: !Numbered(p, number)
    ensures LastNumbered(entries, number).Some? ==>
              exists p <- entries :: Numbered(p, number) && LastNumbered(entries, number).value == "/dev/" + p.0
    decreases |entries|
  {
    if entries != [] {
      var n := |entries| - 1;
      LastNumberedIs(entries[..n], number);
      assert forall p :: p in entries <==> p == entries[n] || p in entries[..n];
    }
  }

  /** Data and hash device differ, as one partition has one number and names in a directory are distinct. */
  lemma PartitionsDiffer(entries: seq<Partition>)
    requires Distinct(entries) && Partitions(Some(entries)).Some?
    ensures var (data, hash) := Partitions(Some(entries)).value;
            data != hash && "/dev/" <= data && "/dev/" <= hash
  {
    LastNumberedIs(entries, "1");
    LastNumberedIs(entries, "2");
    var p :| p in entries && Numbered(p, "1") && LastNumbered(entries, "1").value == "/dev/" + p.0;
    var q :| q in entries && Numbered(q, "2") && LastNumbered(entries, "2").value == "/dev/" + q.0;
    var i :| 0 <= i < |entries| && entries[i] == p;
    var j :| 0 <= j < |entries| && entries[j] == q;
    assert "1" != "2" && i != j;
    assert p.0 != q.0;
    assert ("/dev/" + p.0)[5..] == p.0 && ("/dev/" + q.0)[5..] == q.0;
  }

  // ---------- Mount targets ----------

  const MOUNT_BASE := "/run/kata-extensions"

  function Target(name: string): string {
    MOUNT_BASE + "/" + name
  }

  /** One component of a path, applied to where the path has led so far. */
  function Enter(at: seq<string>, part: string): seq<string> {
    if part == "" || part == "." then at
    else if part == ".." then (if at == [] then [] else at[..|at| - 1])
    else at + [part]
  }

  function Walk(at: seq<string>, parts: seq<string>): seq<string>
    decreases |parts|
  {
    if parts == [] then at else Walk(Enter(at, parts[0]), parts[1..])
  }

  /** The place an absolute path leads to, as the components from the root (without symbolic links). */
  function Normal(path: string): seq<string> {
    Walk([], Split(path, '/'))
  }

  /** A name that is one step down. */
  predicate Proper(part: string) {
    part != "" && part != "." && part != ".." && '/' !in part
  }

  lemma {:induction false} WalkIsProper(at: seq<string>, parts: seq<string>)
    requires (forall a <- at :: Proper(a)) && forall p <- parts :: '/' !in p
    ensures forall a <- Walk(at, parts) :: Proper(a)
    decreases |parts|
  {
    if parts != [] {
      assert parts[0] in parts;
      WalkIsProper(Enter(at, parts[0]), parts[1..]);
    }
  }

  lemma {:induction false} SplitAppend(a: string, c: char, b: string)
    requires c !in a
    ensures Split(a + [c] + b, c) == [a] + Split(b, c)
  {
    var s := a + [c] + b;
    FindFirst(a, c, b);
    assert s[..|a|] == a && s[|a| + 1..] == b;
  }

  lemma Descend(a: string, b: string, path: string)
    requires Proper(a) && Proper(b)
    ensures Normal("/" + a + "/" + b + "/" + path) == Walk([a, b], Split(path, '/'))
  {
    var below := b + "/" + path;
    Regroup(a, b, path);
    FromRoot(a + "/" + below);
    StepDown([], a, below);
    StepDown([a], b, path);
    assert [] + [a] == [a] && [a] + [b] == [a, b];
  }

  lemma Regroup(a: string, b: string, path: string)
    ensures "/" + a + "/" + b + "/" + path == "/" + (a + "/" + (b + "/" + path))
  {
  }

  lemma FromRoot(path: string)
    ensures Normal("/" + path) == Walk([], Split(path, '/'))
  {
    SplitAppend("", '/', path);
    assert "/" + path == "" + ['/'] + path;
    Walk1([], "", Split(path, '/'));
  }

  lemma StepDown(at: seq<string>, part: string, path: string)
    requires Proper(part)
    ensures Walk(at, Split(part + "/" + path, '/')) == Walk(at + [part], Split(path, '/'))
  {
    SplitAppend(part, '/', path);
    assert part + "/" + path == part + ['/'] + path;
    Walk1(at, part, Split(path, '/'));
  }

  lemma Walk1(at: seq<string>, part: string, rest: seq<string>)
    ensures Walk(at, [part] + rest) == Walk(Enter(at, part), rest)
  {
    assert ([part] + rest)[1..] == rest;
  }

  lemma BaseText()
    ensures MOUNT_BASE == "/" + "run" + "/" + "kata-extensions"
    ensures Proper("run") && Proper("kata-extensions")
  {
    assert "run"[0] != '.' && "kata-extensions"[0] != '.';
  }

  lemma BaseIs()
    ensures Normal(MOUNT_BASE) == ["run", "kata-extensions"]
    ensures forall a <- Normal(MOUNT_BASE) :: Proper(a)
  {
    BaseText();
    BaseOf("run", "kata-extensions");
  }

  lemma BaseOf(a: string, b: string)
    requires Proper(a) && Proper(b)
    ensures Normal("/" + a + "/" + b) == [a, b]
  {
    assert "/" + a + "/" + b == "/" + (a + "/" + b);
    FromRoot(a + "/" + b);
    StepDown([], a, b);
    BelowExactly([a], b);
    assert [] + [a] == [a] && [a] + [b] == [a, b];
  }

  lemma BelowExactly(base: seq<string>, name: string)
    requires forall a <- base :: Proper(a)
    ensures Walk(base, Split(name, '/')) == base + [name] <==> Proper(name)
  {
    WalkIsProper(base, Split(name, '/'));
    if Proper(name) {
      FindIsFirst(name, '/');
      Walk1(base, name, []);
      assert [name] + [] == [name];
    } else {
      assert name in base + [name];
    }
  }

  lemma TargetWalk(name: string)
    ensures Normal(Target(name)) == Walk(["run", "kata-extensions"], Split(name, '/'))
  {
    BaseText();
    Descend("run", "kata-extensions", name);
  }

  /** An extension is mounted one step below the mount base exactly when its name is one step down. */
  lemma TargetBelowBaseExactly(name: string)
    ensures Normal(Target(name)) == Normal(MOUNT_BASE) + [name] <==> Proper(name)
  {
    BaseIs();
    TargetWalk(name);
    BelowExactly(Normal(MOUNT_BASE), name);
  }

  lemma ValidIsProper(name: string)
    requires ValidName(name)
    ensures Proper(name)
  {
    assert forall c <- "." :: c == '.';
    assert forall c <- ".." :: c == '.';
  }

  /** From any block devices and any command line: each planned extension is mounted one component below the
      mount base, and extensions with different names in different places. */
  lemma TargetsPlaced(blocks: Option<seq<Block>>, params: seq<Param>)
    requires Discover(blocks).Some? && Reconcile(params, Discover(blocks).value).Some?
    ensures var plan := Reconcile(params, Discover(blocks).value).value;
            && (forall m <- plan :: Normal(Target(m.name)) == Normal(MOUNT_BASE) + [m.name])
            && (forall m, n :: m in plan && n in plan && m.name != n.name ==>
                  Normal(Target(m.name)) != Normal(Target(n.name)))
  {
    var devices := Discover(blocks).value;
    var plan := Reconcile(params, devices).value;
    if blocks.Some? {
      DiscoveredExactly(blocks.value);
    }
    FailClosed(params, devices);
    forall m <- plan ensures Normal(Target(m.name)) == Normal(MOUNT_BASE) + [m.name] {
      var i :| 0 <= i < |plan| && plan[i] == m;
      assert devices[i] in devices && devices[i].0 == m.name;
      ValidIsProper(m.name);
      TargetBelowBaseExactly(m.name);
    }
    forall m, n | m in plan && n in plan && m.name != n.name
      ensures Normal(Target(m.name)) != Normal(Target(n.name))
    {
      LastDiffers(Normal(MOUNT_BASE), m.name, n.name);
    }
  }

  lemma LastDiffers(base: seq<string>, a: string, b: string)
    requires a != b
    ensures base + [a] != base + [b]
  {
    assert (base + [a])[|base|] == a && (base + [b])[|base|] == b;
  }
}
