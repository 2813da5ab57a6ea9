/** src/infiniband.rs: which CX7 bridge port manages the NVLink subnet. */
module Infiniband {
  import opened Text
  import opened Numerals

  /** An entry of /sys/class/infiniband with its files ports/1/cap_mask and ports/1/gids/0; None is a file
      that cannot be read. */
  datatype IbDevice = IbDevice(name: string, capMask: Option<string>, gid: Option<string>)

  datatype IbClass = NoDirectory | Unreadable | Entries(devices: seq<IbDevice>)

  datatype IbPanic = NotFound | ReadFailed | Empty

  /** `trim_start_matches("0x")`, which removes the prefix as often as it is there. */
  function DropHexPrefixes(s: string): (r: string)
    ensures |r| <= |s|
  {
    if "0x" <= s then DropHexPrefixes(s[2..]) else s
  }

  function MaskText(content: string): string {
    DropHexPrefixes(Trim(content))
  }

  const IS_SM_DISABLED_MASK := 0x400

  function Mask(content: string): (mask: nat)
    ensures mask < U32_LIMIT
  {
    match Parse(MaskText(content), 16, U32_LIMIT)
    case Some(n) => n
    case None => 0
  }

  predicate IsSmEnabled(capMask: Option<string>) {
    capMask.Some? && (Mask(capMask.value) / IS_SM_DISABLED_MASK) % 2 == 0
  }

  function ExtractPortGuid(gid: Option<string>): Option<string> {
    if gid == None then None else
      var parts := Split(Trim(gid.value), ':');
      if |parts| != 8 then None else Some("0x" + parts[4] + parts[5] + parts[6] + parts[7])
  }

  /** The GUID a device offers, if it qualifies. */
  function Offer(d: IbDevice): Option<string> {
    if IsSmEnabled(d.capMask) then ExtractPortGuid(d.gid) else None
  }

  // ---------- The order of names ----------

  /** Lexicographic order. */
  predicate Le(a: string, b: string) {
    a == "" || (b != "" && (a[0] < b[0] || (a[0] == b[0] && Le(a[1..], b[1..]))))
  }

  lemma {:induction false} LeTotal(a: string, b: string)
    ensures Le(a, b) || Le(b, a)
    ensures Le(a, b) && Le(b, a) ==> a == b
  {
    if a != "" && b != "" {
      assert a == [a[0]] + a[1..] && b == [b[0]] + b[1..];
      LeTotal(a[1..], b[1..]);
    }
  }

  lemma {:induction false} LeTransitive(a: string, b: string, c: string)
    requires Le(a, b) && Le(b, c)
    ensures Le(a, c)
  {
    if a != "" && a[0] == b[0] == c[0] {
      LeTransitive(a[1..], b[1..], c[1..]);
    }
  }

  /** `a` is a beginning of `b`, or at the first difference its character is the smaller one. */
  ghost predicate Precedes(a: string, b: string) {
    a <= b || exists i :: SmallerAt(a, b, i)
  }

  predicate SmallerAt(a: string, b: string, i: int) {
    0 <= i < |a| && i < |b| && a[..i] == b[..i] && a[i] < b[i]
  }

  lemma SmallerLater(a: string, b: string, i: nat)
    requires a != "" && b != "" && a[0] == b[0]
    ensures SmallerAt(a, b, i + 1) <==> SmallerAt(a[1..], b[1..], i)
  {
    var c, d := a[1..], b[1..];
    if i < |c| && i < |d| {
      assert a[..i + 1] == [a[0]] + c[..i] && b[..i + 1] == [b[0]] + d[..i];
      assert a[..i + 1][1..] == c[..i] && b[..i + 1][1..] == d[..i];
    }
  }

  lemma {:induction false} LeExactly(a: string, b: string)
    ensures Le(a, b) <==> Precedes(a, b)
  {
    if a != "" && b != "" {
      var c, d := a[1..], b[1..];
      LeExactly(c, d);
      FirstAgrees(a, b);
      assert a == [a[0]] + c && b == [b[0]] + d;
      if a[0] < b[0] {
        assert SmallerAt(a, b, 0);
      } else if a[0] == b[0] {
        SameFirst(a, b);
      }
    }
  }

  lemma FirstAgrees(a: string, b: string)
    requires a != "" && b != ""
    ensures forall i :: 0 < i < |a| && i < |b| && a[..i] == b[..i] ==> a[0] == b[0]
  {
    forall i | 0 < i < |a| && i < |b| && a[..i] == b[..i] ensures a[0] == b[0] {
      assert a[..i][0] == a[0] && b[..i][0] == b[0];
    }
  }

  lemma SameFirst(a: string, b: string)
    requires a != "" && b != "" && a[0] == b[0]
    ensures Precedes(a, b) <==> Precedes(a[1..], b[1..])
  {
    assert a == [a[0]] + a[1..] && b == [b[0]] + b[1..];
    assert !SmallerAt(a, b, 0);
    if i: int :| i > 0 && SmallerAt(a, b, i) {
      SmallerLater(a, b, i - 1);
      assert SmallerAt(a[1..], b[1..], i - 1);
    }
    if i: int :| SmallerAt(a[1..], b[1..], i) {
      SmallerLater(a, b, i);
      assert SmallerAt(a, b, i + 1);
    }
  }

  function Insert(d: IbDevice, sorted: seq<IbDevice>): seq<IbDevice> {
    if sorted == [] || Le(d.name, sorted[0].name) then [d] + sorted
    else [sorted[0]] + Insert(d, sorted[1..])
  }

  /** `sort_by_key(file_name)`: ascending, and stable. */
  function SortByName(devices: seq<IbDevice>): seq<IbDevice> {
    if devices == [] then [] else Insert(devices[0], SortByName(devices[1..]))
  }

  // ---------- The program ----------

  function FirstOffer(devices: seq<IbDevice>): Option<string> {
    if devices == [] then None
    else if Offer(devices[0]).Some? then Offer(devices[0])
    else FirstOffer(devices[1..])
  }

  function Detected(ib: IbClass): Result<Option<string>, IbPanic> {
    match ib
    case NoDirectory => Err(NotFound)
    case Unreadable => Err(ReadFailed)
    case Entries(devices) => if devices == [] then Err(Empty) else Ok(FirstOffer(SortByName(devices)))
  }

  method DetectPortGuid(ib: IbClass) returns (r: Result<Option<string>, IbPanic>)
    ensures r == Detected(ib)
  {
    if ib.NoDirectory? {
      return Err(NotFound);
    }
    if ib.Unreadable? {
      return Err(ReadFailed);
    }
    if ib.devices == [] {
      return Err(Empty);
    }
    var entries := SortByName(ib.devices);
    for i := 0 to |entries|
      invariant FirstOffer(entries[i..]) == FirstOffer(entries)
    {
      assert entries[i..][0] == entries[i] && entries[i..][1..] == entries[i + 1..];
      if !IsSmEnabled(entries[i].capMask) {
        continue;
      }
      var portGuid := ExtractPortGuid(entries[i].gid);
      if portGuid.Some? {
        return Ok(portGuid);
      }
    }
    return Ok(None);
  }

  // ---------- The least device is chosen ----------

  predicate DistinctNames(devices: seq<IbDevice>) {
    forall i, j :: 0 <= i < j < |devices| ==> devices[i].name != devices[j].name
  }

  /** `d` offers a GUID and no device with a smaller name does. */
  predicate LeastOffering(devices: seq<IbDevice>, d: IbDevice) {
    d in devices && Offer(d).Some? && forall e <- devices :: Offer(e).Some? ==> Le(d.name, e.name)
  }

  lemma {:induction false} InsertKeeps(d: IbDevice, sorted: seq<IbDevice>)
    ensures forall e :: e in Insert(d, sorted) <==> e == d || e in sorted
  {
    if sorted != [] && !Le(d.name, sorted[0].name) {
      InsertKeeps(d, sorted[1..]);
    }
  }

  lemma {:induction false} SortKeeps(devices: seq<IbDevice>)
    ensures forall e :: e in SortByName(devices) <==> e in devices
  {
    if devices != [] {
      SortKeeps(devices[1..]);
      InsertKeeps(devices[0], SortByName(devices[1..]));
    }
  }

  predicate Ascending(s: seq<IbDevice>) {
    s == [] || (Ascending(s[1..]) && forall e <- s[1..] :: Le(s[0].name, e.name))
  }

  lemma {:induction false} InsertAscends(d: IbDevice, sorted: seq<IbDevice>)
    requires Ascending(sorted)
    ensures Ascending(Insert(d, sorted))
  {
    if sorted == [] {
      assert Insert(d, sorted)[1..] == [];
    } else if Le(d.name, sorted[0].name) {
      assert Insert(d, sorted)[1..] == sorted;
      forall e <- sorted ensures Le(d.name, e.name) {
        if e != sorted[0] {
          assert e in sorted[1..];
          LeTransitive(d.name, sorted[0].name, e.name);
        }
      }
    } else {
      var rest := Insert(d, sorted[1..]);
      InsertAscends(d, sorted[1..]);
      InsertKeeps(d, sorted[1..]);
      LeTotal(d.name, sorted[0].name);
      assert Insert(d, sorted)[1..] == rest;
    }
  }

  lemma {:induction false} SortAscends(devices: seq<IbDevice>)
    ensures Ascending(SortByName(devices))
  {
    if devices != [] {
      SortAscends(devices[1..]);
      InsertAscends(devices[0], SortByName(devices[1..]));
    }
  }

  lemma {:induction false} FirstIsLeast(s: seq<IbDevice>)
    requires Ascending(s)
    ensures FirstOffer(s) == None <==> forall d <- s :: Offer(d) == None
    ensures FirstOffer(s).Some? ==> exists d <- s :: LeastOffering(s, d) && Offer(d) == FirstOffer(s)
  {
    if s != [] {
      assert forall e :: e in s <==> e == s[0] || e in s[1..];
      if Offer(s[0]).Some? {
        LeTotal(s[0].name, s[0].name);
        assert LeastOffering(s, s[0]);
      } else {
        FirstIsLeast(s[1..]);
        if FirstOffer(s).Some? {
          var d :| d in s[1..] && LeastOffering(s[1..], d) && Offer(d) == FirstOffer(s[1..]);
          assert LeastOffering(s, d);
        }
      }
    }
  }

  lemma SameName(devices: seq<IbDevice>, d: IbDevice, e: IbDevice)
    requires DistinctNames(devices) && d in devices && e in devices && d.name == e.name
    ensures d == e
  {
    var i :| 0 <= i < |devices| && devices[i] == d;
    var j :| 0 <= j < |devices| && devices[j] == e;
    assert i == j;
  }

  /** Detection gives a GUID exactly when the device with the least name among those with an enabled subnet
      manager and a GID of eight groups offers that GUID. Names in a directory are distinct. */
  lemma ChoosesLeast(devices: seq<IbDevice>, guid: string)
    requires devices != [] && DistinctNames(devices)
    ensures Detected(Entries(devices)) == Ok(Some(guid)) <==>
              exists d <- devices :: LeastOffering(devices, d) && Offer(d) == Some(guid)
    ensures Detected(Entries(devices)) == Ok(None) <==> forall d <- devices :: Offer(d) == None
  {
    var sorted := SortByName(devices);
    SortAscends(devices);
    SortKeeps(devices);
    FirstIsLeast(sorted);
    forall d, e | LeastOffering(devices, d) && LeastOffering(devices, e) ensures d == e {
      LeTotal(d.name, e.name);
      SameName(devices, d, e);
    }
    forall d ensures LeastOffering(devices, d) == LeastOffering(sorted, d) {
      SameLeast(devices, sorted, d);
    }
  }

  /** A device with an enabled subnet manager and a GID of eight groups. */
  predicate Qualifies(d: IbDevice) {
    IsSmEnabled(d.capMask) && d.gid.Some? && |Split(Trim(d.gid.value), ':')| == 8
  }

  /** A port is detected exactly when there is a device that qualifies. */
  lemma DetectsExactly(ib: IbClass)
    ensures Detected(ib).Ok? && Detected(ib).value.Some? <==> ib.Entries? && exists d <- ib.devices :: Qualifies(d)
  {
    if ib.Entries? {
      SortKeeps(ib.devices);
      SortAscends(ib.devices);
      FirstIsLeast(SortByName(ib.devices));
      assert forall d :: Offer(d).Some? <==> Qualifies(d);
    }
  }

  lemma SameLeast(a: seq<IbDevice>, b: seq<IbDevice>, d: IbDevice)
    requires forall e :: e in a <==> e in b
    ensures LeastOffering(a, d) == LeastOffering(b, d)
  {
  }

  /** The order in which the directory lists the devices does not matter. */
  lemma DirectoryOrderIrrelevant(a: seq<IbDevice>, b: seq<IbDevice>)
    requires multiset(a) == multiset(b) && DistinctNames(a) && DistinctNames(b)
    ensures Detected(Entries(a)) == Detected(Entries(b))
  {
    assert |multiset(a)| == |a| && |multiset(b)| == |b|;
    if a != [] {
      forall e ensures e in a <==> e in b {
        assert e in a <==> e in multiset(a);
        assert e in b <==> e in multiset(b);
      }
      forall d ensures LeastOffering(a, d) == LeastOffering(b, d) {
        SameLeast(a, b, d);
      }
      match Detected(Entries(a))
      case Ok(Some(guid)) =>
        ChoosesLeast(a, guid);
        ChoosesLeast(b, guid);
      case Ok(None) =>
        ChoosesLeast(a, "");
        ChoosesLeast(b, "");
    }
  }

  // ---------- The capability mask ----------

  /** The digits of a numeral, without its plus sign. */
  function Digits(s: string): string {
    if s != "" && s[0] == '+' then s[1..] else s
  }

  /** Bit 10 of a hexadecimal numeral is the 4-bit of its third digit from the right. */
  lemma BitTen(s: string)
    requires AllDigits(s, 16)
    ensures (Value(s, 16) / 0x400) % 2 == 1 <==> |s| >= 3 && (Digit(s[|s| - 3], 16).value / 4) % 2 == 1
  {
    ValueBound(s, 16);
    if |s| < 3 {
      assert Power(16, |s|) <= 0x100;
    } else {
      var d3, d2, d1 := Digit(s[|s| - 3], 16).value, Digit(s[|s| - 2], 16).value, Digit(s[|s| - 1], 16).value;
      var t := s[..|s| - 1];
      var u := t[..|t| - 1];
      assert u[..|u| - 1] == s[..|s| - 3];
      var v := Value(s[..|s| - 3], 16);
      assert Value(s, 16) == ((v * 16 + d3) * 16 + d2) * 16 + d1;
      Bit(v, d3, d2 * 16 + d1);
    }
  }

  lemma Bit(v: nat, d: nat, low: nat)
    requires d < 16 && low < 0x100
    ensures ((v * 0x1000 + d * 0x100 + low) / 0x400) % 2 == (d / 4) % 2
  {
    Quotient(0x400, 4 * v + d / 4, (d % 4) * 0x100 + low);
    Quotient(2, 2 * v + d / 4 / 2, d / 4 % 2);
  }

  lemma Quotient(k: nat, q: nat, r: nat)
    requires r < k
    ensures (k * q + r) / k == q && (k * q + r) % k == r
  {
    assert (k * q + r) / k == q + r / k by {
      DivAdds(k, q, r);
    }
  }

  lemma DivAdds(k: nat, q: nat, r: nat)
    requires r < k
    ensures (k * q + r) / k == q + r / k
  {
    var n := k * q + r;
    var d: int := n / k - q;
    assert k * (n / k) + n % k == n;
    assert k * (n / k) == k * q + k * d;
    AtLeast(k, d);
  }

  lemma AtLeast(k: int, d: int)
    requires k >= 0
    ensures d >= 1 ==> k * d >= k
    ensures d <= -1 ==> k * d <= -k
  {
    if d >= 1 {
      assert k * (d - 1) >= 0;
    } else if d <= -1 {
      assert k * (d + 1) <= 0;
    }
  }

  /** The subnet manager counts as disabled exactly when the mask is a numeral below 2^32 whose third digit
      from the right has its 4-bit set, or when the file cannot be read. In particular a malformed or
      oversized mask counts as enabled. */
  lemma SmDisabledExactly(capMask: Option<string>)
    ensures !IsSmEnabled(capMask) <==>
              || capMask == None
              || var t := MaskText(capMask.value);
                 var ds := Digits(t);
                 && Parse(t, 16, U32_LIMIT).Some?
                 && |ds| >= 3 && (Digit(ds[|ds| - 3], 16).value / 4) % 2 == 1
  {
    if capMask.Some? && Parse(MaskText(capMask.value), 16, U32_LIMIT).Some? {
      BitTen(Digits(MaskText(capMask.value)));
    }
  }

  /** What the kernel prints, "0x", digits and a newline, is read as those digits. */
  lemma PrintedMask(digits: string)
    requires digits != "" && AllDigits(digits, 16)
    ensures MaskText("0x" + digits + "\n") == digits
  {
    var s := "0x" + digits;
    assert digits[|digits| - 1] in digits;
    TrimEndKeeps(s, "\n");
    assert "\n"[..|"\n"| - 1] == "";
    assert TrimEnd("\n") == "" && s + "" == s;
    assert s[2..] == digits;
    assert Digit("0x"[1], 16) == None;
    assert |digits| >= 2 ==> digits[1] in digits;
    assert DropHexPrefixes(digits) == digits;
    assert s + "\n" == "0x" + digits + "\n" && TrimStart(s + "\n") == s + "\n";
  }

  /** A repeated "0x" is dropped as a whole. */
  lemma HexPrefixDropped(s: string)
    ensures DropHexPrefixes("0x" + s) == DropHexPrefixes(s)
    ensures !("0x" <= s) ==> DropHexPrefixes(s) == s
  {
    assert ("0x" + s)[2..] == s;
  }

  /** A printed mask that does not fit into 32 bits counts as enabled, whatever its bit 10. */
  lemma OversizedMaskEnabled(digits: string)
    requires digits != "" && AllDigits(digits, 16) && Value(digits, 16) >= U32_LIMIT
    ensures IsSmEnabled(Some("0x" + digits + "\n"))
  {
    PrintedMask(digits);
    assert digits[0] in digits && Digit('+', 16) == None;
  }

  /** Such a mask: its value is above 2^32 and its bit 10 is set. */
  lemma OversizedMaskExample()
    ensures var digits := "100000400";
            && AllDigits(digits, 16) && (Value(digits, 16) / IS_SM_DISABLED_MASK) % 2 == 1
            && IsSmEnabled(Some("0x100000400\n"))
  {
    var digits := "1" + "00000400";
    ValueAppend("1", "00000400", 16);
    assert "1"[..0] == "" && Value("1", 16) == 1;
    assert Power(16, 2) == 0x100;
    PowerAdd(16, 2, 2);
    PowerAdd(16, 4, 4);
    assert digits == "100000400";
    BitTen(digits);
    OversizedMaskEnabled(digits);
    assert "0x" + digits + "\n" == "0x100000400\n";
  }

  // ---------- The GUID is the low half of the GID ----------

  /** A group of a GID in the full text form of section 2.2 of RFC 4291. */
  type Group = s: string | 1 <= |s| <= 4 && AllDigits(s, 16) witness "0"

  function GroupsValue(groups: seq<Group>): nat {
    if groups == [] then 0
    else
      var n := |groups| - 1;
      GroupsValue(groups[..n]) * 0x1_0000 + Value(groups[n], 16)
  }

  /** The text of a GID, as the kernel prints it. */
  function GidText(groups: seq<Group>): string {
    Join(groups, ':') + "\n"
  }

  /** The last four groups, run together. */
  function LastFour(groups: seq<Group>): string
    requires |groups| == 8
  {
    var g4: string, g5: string, g6: string, g7: string := groups[4], groups[5], groups[6], groups[7];
    g4 + g5 + g6 + g7
  }

  /** Three groups after a given one lose no zeros when they are run together. */
  predicate NoZerosLost(groups: seq<Group>)
    requires |groups| == 8
  {
    var v4, v5, v6 := Value(groups[4], 16), Value(groups[5], 16), Value(groups[6], 16);
    && (|groups[5]| == 4 || v4 == 0)
    && (|groups[6]| == 4 || v4 == v5 == 0)
    && (|groups[7]| == 4 || v4 == v5 == v6 == 0)
  }

  lemma GroupValueBound(g: Group)
    ensures Value(g, 16) < 0x1_0000
  {
    ValueBound(g, 16);
    SmallPowers(|g|);
  }

  lemma SmallPowers(n: nat)
    requires n <= 4
    ensures 1 <= Power(16, n) <= 0x1_0000
    ensures Power(16, n) == 0x1_0000 <==> n == 4
  {
    if n > 0 {
      SmallPowers(n - 1);
      if n == 4 {
        assert Power(16, 1) == 16 && Power(16, 2) == 256 && Power(16, 3) == 4096;
      } else if n == 3 {
        assert Power(16, 1) == 16 && Power(16, 2) == 256;
      } else if n == 2 {
        assert Power(16, 1) == 16;
      }
    }
  }

  /** Appending a group to a text whose value falls short of the padded value by nothing, or by something. */
  lemma AppendGroup(s: string, padded: nat, g: Group)
    requires AllDigits(s, 16)
    requires Value(s, 16) <= padded
    ensures AllDigits(s + g, 16)
    ensures Value(s + g, 16) <= padded * 0x1_0000 + Value(g, 16)
    ensures Value(s + g, 16) == padded * 0x1_0000 + Value(g, 16) <==>
              Value(s, 16) == padded && (|g| == 4 || padded == 0)
  {
    ValueAppend(s, g, 16);
    SmallPowers(|g|);
    Scale(Value(s, 16), padded, Power(16, |g|));
  }

  lemma Scale(v: nat, padded: nat, power: nat)
    requires v <= padded && 1 <= power <= 0x1_0000
    ensures v * power <= padded * 0x1_0000
    ensures v * power == padded * 0x1_0000 <==> v == padded && (power == 0x1_0000 || padded == 0)
  {
    assert v * power <= padded * power <= padded * 0x1_0000;
    if v < padded {
      assert (v + 1) * power <= padded * power;
    } else if power < 0x1_0000 && padded > 0 {
      assert padded * (power + 1) <= padded * 0x1_0000;
    }
  }

  /** Four groups as one number, each in its own 16 bits. */
  function Four(v4: nat, v5: nat, v6: nat, v7: nat): nat {
    ((v4 * 0x1_0000 + v5) * 0x1_0000 + v6) * 0x1_0000 + v7
  }

  lemma LowFour(hi: nat, v4: nat, v5: nat, v6: nat, v7: nat)
    requires v4 < 0x1_0000 && v5 < 0x1_0000 && v6 < 0x1_0000 && v7 < 0x1_0000
    ensures Four(hi * 0x1_0000 + v4, v5, v6, v7) % U64_LIMIT == Four(v4, v5, v6, v7)
  {
    var low := Four(v4, v5, v6, v7);
    assert Four(hi * 0x1_0000 + v4, v5, v6, v7) == U64_LIMIT * hi + low;
    Quotient(U64_LIMIT, hi, low);
  }

  lemma Unpad(groups: seq<Group>)
    requires |groups| == 8
    ensures GroupsValue(groups) % U64_LIMIT
            == Four(Value(groups[4], 16), Value(groups[5], 16), Value(groups[6], 16), Value(groups[7], 16))
  {
    GroupValueBound(groups[4]);
    GroupValueBound(groups[5]);
    GroupValueBound(groups[6]);
    GroupValueBound(groups[7]);
    var g7, g6, g5 := groups[..7], groups[..6], groups[..5];
    assert g7[..6] == g6 && g6[..5] == g5 && g5[..4] == groups[..4];
    assert GroupsValue(g5) == GroupsValue(groups[..4]) * 0x1_0000 + Value(groups[4], 16);
    assert GroupsValue(g6) == GroupsValue(g5) * 0x1_0000 + Value(groups[5], 16);
    assert GroupsValue(g7) == GroupsValue(g6) * 0x1_0000 + Value(groups[6], 16);
    LowFour(GroupsValue(groups[..4]), Value(groups[4], 16), Value(groups[5], 16), Value(groups[6], 16),
            Value(groups[7], 16));
  }

  lemma RunTogether(groups: seq<Group>)
    requires |groups| == 8
    ensures var g4, g5, g6, g7 := groups[4], groups[5], groups[6], groups[7];
            var v4, v5, v6, v7 := Value(g4, 16), Value(g5, 16), Value(g6, 16), Value(g7, 16);
            var low := LastFour(groups);
            && AllDigits(low, 16)
            && (Value(low, 16) == Four(v4, v5, v6, v7) <==>
                  (|g5| == 4 || v4 == 0) && (|g6| == 4 || v4 == v5 == 0) && (|g7| == 4 || v4 == v5 == v6 == 0))
  {
    var v4, v5, v6 := Value(groups[4], 16), Value(groups[5], 16), Value(groups[6], 16);
    var s: string := groups[4];
    AppendGroup(s, v4, groups[5]);
    s := s + groups[5];
    AppendGroup(s, v4 * 0x1_0000 + v5, groups[6]);
    s := s + groups[6];
    AppendGroup(s, (v4 * 0x1_0000 + v5) * 0x1_0000 + v6, groups[7]);
  }

  lemma Prefixed(a: string, b: string, c: string, d: string, e: string)
    ensures a + (b + c + d + e) == a + b + c + d + e
  {
  }

  lemma GidSplits(groups: seq<Group>)
    requires |groups| == 8
    ensures Split(Trim(GidText(groups)), ':') == groups
  {
    var s := Join(groups, ':');
    JoinEnds(groups);
    TrimEndKeeps(s, "\n");
    assert "\n"[..|"\n"| - 1] == "";
    assert TrimEnd("\n") == "" && s + "" == s;
    forall g <- groups ensures ':' !in g {
      assert Digit(':', 16) == None;
    }
    SplitOfJoin(groups, ':');
  }

  lemma {:induction false} JoinEnds(groups: seq<Group>)
    requires groups != []
    ensures var s := Join(groups, ':'); s != "" && !IsWhitespace(s[0]) && !IsWhitespace(s[|s| - 1])
  {
    var g := groups[0];
    assert g[0] in g && g[|g| - 1] in g;
    if |groups| > 1 {
      JoinEnds(groups[1..]);
    }
  }

  /** For every GID of eight groups of one to four hexadecimal digits, the port GUID is the low half of
      the GID if and only if running the last groups together loses no zeros. */
  lemma GuidIsLowHalfExactly(groups: seq<Group>)
    requires |groups| == 8
    ensures var low := LastFour(groups);
            && ExtractPortGuid(Some(GidText(groups))) == Some("0x" + low)
            && AllDigits(low, 16)
            && (Value(low, 16) == GroupsValue(groups) % U64_LIMIT <==> NoZerosLost(groups))
  {
    GidSplits(groups);
    Prefixed("0x", groups[4], groups[5], groups[6], groups[7]);
    RunTogether(groups);
    Unpad(groups);
  }

  /** Full-width groups, the form the kernel prints, always give the low half. */
  lemma FullWidthGuid(groups: seq<Group>)
    requires |groups| == 8 && forall g <- groups :: |g| == 4
    ensures var low := LastFour(groups);
            && ExtractPortGuid(Some(GidText(groups))) == Some("0x" + low)
            && AllDigits(low, 16) && Value(low, 16) == GroupsValue(groups) % U64_LIMIT
  {
    GuidIsLowHalfExactly(groups);
  }
}
