/** Logical storage names per physical device (collectors/observatory_collectors/host_pi/inventory.py). */
module LogicalNames {
  import opened Wrappers

  /** One storage entry; `name` is filled in place. */
  class DiskEntry {
    const physicalDevice: Option<string>
    const device: Option<string>
    const kind: Option<string>
    var name: string

    constructor (physicalDevice: Option<string>, device: Option<string>, kind: Option<string>)
      ensures this.physicalDevice == physicalDevice && this.device == device && this.kind == kind
    {
      this.physicalDevice, this.device, this.kind, this.name := physicalDevice, device, kind, "";
    }

    function Physical(): string {
      if physicalDevice.Some? && physicalDevice.value != "" then physicalDevice.value
      else if device.Some? then device.value
      else ""
    }

    function AsDisk(): Disk {
      Disk.Disk(Physical(), Prefix(kind))
    }
  }

  /** What naming looks at: the physical device and the prefix of its type. */
  datatype Disk = Disk(physical: string, prefix: string)

  const PREFIXES: map<string, string> :=
    map["SD Card" := "SD", "eMMC" := "EMMC", "SSD" := "SSD", "HDD" := "HDD", "Disk" := "DISK"]

  function Prefix(kind: Option<string>): (p: string)
    ensures NoDigits(p)
    ensures kind == Some("SD Card") ==> p == "SD"
    ensures kind == Some("eMMC") ==> p == "EMMC"
    ensures kind == Some("SSD") ==> p == "SSD"
    ensures kind == Some("HDD") ==> p == "HDD"
    ensures kind.None? || kind.value !in {"SD Card", "eMMC", "SSD", "HDD"} ==> p == "DISK"
  {
    if kind.Some? && kind.value in PREFIXES then PREFIXES[kind.value] else "DISK"
  }

  predicate IsDigit(c: char) {
    '0' <= c <= '9'
  }

  ghost predicate NoDigits(s: string) {
    forall c | c in s :: !IsDigit(c)
  }

  function Digit(n: nat): (c: char)
    requires n < 10
    ensures IsDigit(c)
  {
    ('0' as int + n) as char
  }

  /** Python's `str` of a non-negative integer. */
  function Decimal(n: nat): (s: string)
    ensures s != [] && forall c | c in s :: IsDigit(c)
  {
    if n < 10 then [Digit(n)] else Decimal(n / 10) + [Digit(n % 10)]
  }

  /** The number that a string of digits denotes. */
  function Value(s: string): int {
    if s == [] then 0 else 10 * Value(s[..|s| - 1]) + (s[|s| - 1] as int - '0' as int)
  }

  /** The decimal form denotes its number, without a leading zero. */
  lemma {:induction false} DecimalDenotes(n: nat)
    ensures Value(Decimal(n)) == n
    ensures n > 0 ==> Decimal(n)[0] != '0'
    ensures n == 0 ==> Decimal(n) == "0"
  {
    if n >= 10 {
      DecimalDenotes(n / 10);
      assert Decimal(n)[..|Decimal(n)| - 1] == Decimal(n / 10);
    } else {
      assert [Digit(n)][..0] == [];
    }
  }

  lemma {:induction false} DecimalIsInjective(a: nat, b: nat)
    requires Decimal(a) == Decimal(b)
    ensures a == b
  {
    assert Decimal(a)[|Decimal(a)| - 1] == Digit(a % 10) && Decimal(b)[|Decimal(b)| - 1] == Digit(b % 10);
    if a >= 10 && b >= 10 {
      assert Decimal(a)[..|Decimal(a)| - 1] == Decimal(a / 10) && Decimal(b)[..|Decimal(b)| - 1] == Decimal(b / 10);
      DecimalIsInjective(a / 10, b / 10);
    }
  }

  lemma FirstDigitEndsPrefix(p: string, n: nat)
    requires NoDigits(p)
    ensures var s := p + Decimal(n);
            |p| < |s| && IsDigit(s[|p|]) && forall i | 0 <= i < |p| :: !IsDigit(s[i])
  {
    var s := p + Decimal(n);
    assert s[|p|] == Decimal(n)[0] && Decimal(n)[0] in Decimal(n);
    forall i | 0 <= i < |p| ensures !IsDigit(s[i]) {
      assert s[i] == p[i] && p[i] in p;
    }
  }

  /** A digit-free prefix and an ordinal can be read back from the name. */
  lemma NameIsInjective(p: string, a: nat, q: string, b: nat)
    requires NoDigits(p) && NoDigits(q) && p + Decimal(a) == q + Decimal(b)
    ensures p == q && a == b
  {
    FirstDigitEndsPrefix(p, a);
    FirstDigitEndsPrefix(q, b);
    var s := p + Decimal(a);
    assert |p| == |q|;
    assert p == s[..|p|] && q == s[..|q|] && Decimal(a) == s[|p|..] && Decimal(b) == s[|q|..];
    DecimalIsInjective(a, b);
  }

  /** Ordinals used per prefix, and names given per physical device, after the entries in order. */
  function Naming(disks: seq<Disk>): (map<string, nat>, map<string, string>) {
    if disks == [] then (map[], map[]) else
      var (counters, named) := Naming(disks[..|disks| - 1]);
      var d := disks[|disks| - 1];
      if d.physical in named then (counters, named)
      else
        var n := (if d.prefix in counters then counters[d.prefix] else 0) + 1;
        (counters[d.prefix := n], named[d.physical := d.prefix + Decimal(n)])
  }

  /** These are the ordinals and names after the first `i` entries. */
  ghost predicate NamedUpTo(disks: seq<Disk>, i: nat, counters: map<string, nat>, named: map<string, string>) {
    i <= |disks| && (counters, named) == Naming(disks[..i])
  }

  lemma NamingOneMore(disks: seq<Disk>, i: nat, counters: map<string, nat>, named: map<string, string>)
    requires i < |disks| && NamedUpTo(disks, i, counters, named)
    ensures var d := disks[i];
            var n := (if d.prefix in counters then counters[d.prefix] else 0) + 1;
            if d.physical in named then NamedUpTo(disks, i + 1, counters, named)
            else NamedUpTo(disks, i + 1, counters[d.prefix := n], named[d.physical := d.prefix + Decimal(n)])
  {
    assert disks[..i + 1][..i] == disks[..i];
  }

  /** The physical devices first seen under prefix `p`, in order of first appearance. */
  ghost function FirstSeen(disks: seq<Disk>, p: string): seq<string> {
    if disks == [] then [] else
      var front, d := disks[..|disks| - 1], disks[|disks| - 1];
      FirstSeen(front, p) + if d.prefix == p && !Seen(front, d.physical) then [d.physical] else []
  }

  ghost predicate Seen(disks: seq<Disk>, physical: string) {
    exists i | 0 <= i < |disks| :: disks[i].physical == physical
  }

  /** The `k`-th device first seen under `p` is named `p` followed by `k + 1`. */
  ghost predicate CountsUp(disks: seq<Disk>, p: string) {
    var (counters, named) := Naming(disks);
    var firsts := FirstSeen(disks, p);
    && (if p in counters then counters[p] == |firsts| else firsts == [])
    && (forall k | 0 <= k < |firsts| :: firsts[k] in named && named[firsts[k]] == p + Decimal(k + 1))
  }

  lemma SeenOneMore(disks: seq<Disk>, d: Disk, physical: string)
    ensures Seen(disks + [d], physical) <==> Seen(disks, physical) || d.physical == physical
  {
    assert (disks + [d])[|disks|] == d;
    if i :| 0 <= i < |disks| && disks[i].physical == physical {
      assert (disks + [d])[i].physical == physical;
    }
  }

  /** Exactly the devices seen are named, and under every prefix the names count up. */
  lemma {:induction false} OrdinalsCountUp(disks: seq<Disk>, p: string)
    ensures forall x :: x in Naming(disks).1 <==> Seen(disks, x)
    ensures CountsUp(disks, p)
  {
    if disks != [] {
      var front, d := disks[..|disks| - 1], disks[|disks| - 1];
      assert disks == front + [d];
      OrdinalsCountUp(front, p);
      forall x ensures x in Naming(disks).1 <==> Seen(disks, x) {
        SeenOneMore(front, d, x);
      }
      var firsts := FirstSeen(front, p);
      forall k | 0 <= k < |firsts| ensures Seen(front, firsts[k]) {
      }
    }
  }

  /** Each named device is some numbered first of some digit-free prefix. */
  lemma {:induction false} NamedDeviceHasOrdinal(disks: seq<Disk>, x: string) returns (p: string, k: nat)
    requires forall i | 0 <= i < |disks| :: NoDigits(disks[i].prefix)
    requires Seen(disks, x)
    ensures NoDigits(p) && k < |FirstSeen(disks, p)| && FirstSeen(disks, p)[k] == x
  {
    var front, d := disks[..|disks| - 1], disks[|disks| - 1];
    assert disks == front + [d];
    SeenOneMore(front, d, x);
    if Seen(front, x) {
      p, k := NamedDeviceHasOrdinal(front, x);
    } else {
      p, k := d.prefix, |FirstSeen(front, d.prefix)|;
    }
  }

  /** The name of a seen device, read back to its place. */
  lemma {:induction false} NamedAs(disks: seq<Disk>, x: string) returns (p: string, k: nat)
    requires forall n | 0 <= n < |disks| :: NoDigits(disks[n].prefix)
    requires Seen(disks, x)
    ensures NoDigits(p) && k < |FirstSeen(disks, p)| && FirstSeen(disks, p)[k] == x
    ensures x in Naming(disks).1 && Naming(disks).1[x] == p + Decimal(k + 1)
  {
    p, k := NamedDeviceHasOrdinal(disks, x);
    OrdinalsCountUp(disks, p);
  }

  /** Two devices share a name exactly when they are the same physical device. */
  lemma {:induction false} NamesIdentifyDevices(disks: seq<Disk>, i: nat, j: nat)
    requires forall n | 0 <= n < |disks| :: NoDigits(disks[n].prefix)
    requires i < |disks| && j < |disks|
    ensures var named := Naming(disks).1;
            && disks[i].physical in named && disks[j].physical in named
            && (named[disks[i].physical] == named[disks[j].physical] <==> disks[i].physical == disks[j].physical)
  {
    var p, k := NamedAs(disks, disks[i].physical);
    var q, l := NamedAs(disks, disks[j].physical);
    var named := Naming(disks).1;
    if named[disks[i].physical] == named[disks[j].physical] {
      NameIsInjective(p, k + 1, q, l + 1);
    }
  }

  function Disks(entries: seq<DiskEntry>): seq<Disk> {
    seq(|entries|, i requires 0 <= i < |entries| => entries[i].AsDisk())
  }

  /** The entry's physical device in its own fields: the physical one if it names any, else its device. */
  ghost predicate LiesOn(e: DiskEntry, x: string) {
    if e.physicalDevice.Some? && e.physicalDevice.value != "" then x == e.physicalDevice.value
    else if e.device.Some? then x == e.device.value
    else x == ""
  }

  ghost predicate SameDevice(e: DiskEntry, f: DiskEntry) {
    exists x :: LiesOn(e, x) && LiesOn(f, x)
  }

  /** Entry `f` is the first on its device. */
  ghost predicate FirstOnDevice(entries: seq<DiskEntry>, f: nat) {
    f < |entries| && forall j | 0 <= j < f :: !SameDevice(entries[j], entries[f])
  }

  /** How many of the first `n` entries are the first on their device and get prefix `p`. */
  ghost function DevicesWith(entries: seq<DiskEntry>, n: nat, p: string): nat
    requires n <= |entries|
  {
    if n == 0 then 0
    else DevicesWith(entries, n - 1, p)
         + if FirstOnDevice(entries, n - 1) && Prefix(entries[n - 1].kind) == p then 1 else 0
  }

  /** The name of entry `i`: the prefix for the type of the first entry on its device, and that device's ordinal. */
  ghost predicate NamedAfter(entries: seq<DiskEntry>, i: nat, f: nat, name: string) {
    && f <= i < |entries| && FirstOnDevice(entries, f) && SameDevice(entries[f], entries[i])
    && var p := Prefix(entries[f].kind);
       exists digits :: name == p + digits && Value(digits) == DevicesWith(entries, f + 1, p)
                        && digits != [] && digits[0] != '0' && forall c | c in digits :: IsDigit(c)
  }

  lemma FieldsTellDevice(e: DiskEntry, f: DiskEntry)
    ensures SameDevice(e, f) <==> e.Physical() == f.Physical()
  {
    assert LiesOn(e, e.Physical()) && LiesOn(f, f.Physical());
  }

  lemma FirstIsUnseen(entries: seq<DiskEntry>, f: nat)
    requires f < |entries|
    ensures FirstOnDevice(entries, f) <==> !Seen(Disks(entries)[..f], entries[f].Physical())
  {
    var disks := Disks(entries);
    forall j | 0 <= j < f
      ensures SameDevice(entries[j], entries[f]) <==> disks[..f][j].physical == entries[f].Physical()
    {
      FieldsTellDevice(entries[j], entries[f]);
    }
  }

  lemma FirstSeenOneMore(disks: seq<Disk>, n: nat, p: string)
    requires n < |disks|
    ensures FirstSeen(disks[..n + 1], p)
         == FirstSeen(disks[..n], p)
            + if disks[n].prefix == p && !Seen(disks[..n], disks[n].physical) then [disks[n].physical] else []
  {
    assert disks[..n + 1][..n] == disks[..n];
  }

  ghost predicate CountsDevices(entries: seq<DiskEntry>, n: nat, p: string) {
    n <= |entries| && DevicesWith(entries, n, p) == |FirstSeen(Disks(entries)[..n], p)|
  }

  lemma {:induction false} CountsOneMore(entries: seq<DiskEntry>, n: nat, p: string)
    requires n < |entries| && CountsDevices(entries, n, p)
    ensures CountsDevices(entries, n + 1, p)
  {
    FirstIsUnseen(entries, n);
    FirstSeenOneMore(Disks(entries), n, p);
    assert Disks(entries)[n] == entries[n].AsDisk();
  }

  lemma {:induction false} DevicesAreFirstSeen(entries: seq<DiskEntry>, n: nat, p: string)
    requires n <= |entries|
    ensures CountsDevices(entries, n, p)
  {
    if n > 0 {
      DevicesAreFirstSeen(entries, n - 1, p);
      CountsOneMore(entries, n - 1, p);
    }
  }

  /** A seen device is named where it was seen first. */
  lemma {:induction false} NamedWhereFirst(disks: seq<Disk>, x: string) returns (f: nat)
    requires Seen(disks, x)
    ensures NamedFirstAt(disks, x, f)
    ensures forall i | 0 <= i < |disks| && disks[i].physical == x :: f <= i
  {
    var front, d := disks[..|disks| - 1], disks[|disks| - 1];
    assert disks == front + [d];
    SeenOneMore(front, d, x);
    if Seen(front, x) {
      f := NamedWhereFirst(front, x);
      NamedFirstStays(front, d, x, f);
    } else {
      f := |front|;
      NamedFirstNow(front, d);
    }
  }

  /** Device `x` occurs first at `f`; its name is that entry's prefix and the number of devices so far under it. */
  ghost predicate NamedFirstAt(disks: seq<Disk>, x: string, f: nat) {
    && f < |disks| && disks[f].physical == x && !Seen(disks[..f], x)
    && x in Naming(disks).1
    && Naming(disks).1[x] == disks[f].prefix + Decimal(|FirstSeen(disks[..f + 1], disks[f].prefix)|)
  }

  lemma {:induction false} NamedFirstStays(front: seq<Disk>, d: Disk, x: string, f: nat)
    requires NamedFirstAt(front, x, f)
    ensures NamedFirstAt(front + [d], x, f)
  {
    var disks := front + [d];
    assert disks[..|front|] == front;
    assert front[..f] == disks[..f] && front[..f + 1] == disks[..f + 1];
  }

  lemma {:induction false} NamedFirstNow(front: seq<Disk>, d: Disk)
    requires !Seen(front, d.physical)
    ensures NamedFirstAt(front + [d], d.physical, |front|)
  {
    var disks := front + [d];
    assert disks[..|front|] == front && disks[..|front| + 1] == disks;
    OrdinalsCountUp(front, d.prefix);
    assert FirstSeen(disks, d.prefix) == FirstSeen(front, d.prefix) + [d.physical];
  }

  lemma {:induction false} EntryIsNamedAfter(entries: seq<DiskEntry>, i: nat) returns (f: nat)
    requires i < |entries|
    ensures entries[i].Physical() in Naming(Disks(entries)).1
    ensures NamedAfter(entries, i, f, Naming(Disks(entries)).1[entries[i].Physical()])
  {
    var disks, x := Disks(entries), entries[i].Physical();
    assert disks[i].physical == x;
    f := NamedWhereFirst(disks, x);
    assert disks[f] == entries[f].AsDisk();
    FirstIsUnseen(entries, f);
    FieldsTellDevice(entries[f], entries[i]);
    var p := Prefix(entries[f].kind);
    DevicesAreFirstSeen(entries, f + 1, p);
    DecimalDenotes(DevicesWith(entries, f + 1, p));
    assert FirstOnDevice(entries, f);
    assert DevicesWith(entries, f + 1, p) > 0;
  }

  /** The entry carries the name given to its physical device. */
  ghost predicate CarriesName(e: DiskEntry, named: map<string, string>)
    reads e
  {
    e.Physical() in named && e.name == named[e.Physical()]
  }

  /** The first `n` entries carry the names of their devices. */
  ghost predicate CarryNames(entries: seq<DiskEntry>, n: nat, named: map<string, string>)
    reads entries
  {
    n <= |entries| && forall i | 0 <= i < n :: CarriesName(entries[i], named)
  }

  /** Two entries share a name exactly when they share a device. */
  ghost predicate ToldApart(entries: seq<DiskEntry>)
    reads entries
  {
    forall i, j | 0 <= i < |entries| && 0 <= j < |entries| ::
      entries[i].name == entries[j].name <==> SameDevice(entries[i], entries[j])
  }

  ghost predicate HasRuleName(entries: seq<DiskEntry>, i: nat)
    requires i < |entries|
    reads entries
  {
    exists f: nat :: NamedAfter(entries, i, f, entries[i].name)
  }

  /** Every entry is named after the first on its device. */
  ghost predicate NamedByRule(entries: seq<DiskEntry>)
    reads entries
  {
    forall i | 0 <= i < |entries| :: HasRuleName(entries, i)
  }

  lemma {:induction false} EntriesAreToldApart(entries: seq<DiskEntry>)
    requires CarryNames(entries, |entries|, Naming(Disks(entries)).1)
    ensures ToldApart(entries)
  {
    var disks := Disks(entries);
    forall i, j | 0 <= i < |entries| && 0 <= j < |entries|
      ensures entries[i].name == entries[j].name <==> SameDevice(entries[i], entries[j])
    {
      FieldsTellDevice(entries[i], entries[j]);
      assert disks[i].physical == entries[i].Physical() && disks[j].physical == entries[j].Physical();
      NamesIdentifyDevices(disks, i, j);
    }
  }

  lemma {:induction false} EntriesAreNamedByRule(entries: seq<DiskEntry>)
    requires CarryNames(entries, |entries|, Naming(Disks(entries)).1)
    ensures NamedByRule(entries)
  {
    forall i | 0 <= i < |entries| ensures HasRuleName(entries, i) {
      var f := EntryIsNamedAfter(entries, i);
      assert CarriesName(entries[i], Naming(Disks(entries)).1);
      assert NamedAfter(entries, i, f, entries[i].name);
    }
  }

  /** Gives the device of an entry a name, unless it has one. */
  method NameDevice(
      entry: DiskEntry, counters: map<string, nat>, named: map<string, string>, ghost disks: seq<Disk>, ghost i: nat)
      returns (counted: map<string, nat>, names: map<string, string>)
    requires i < |disks| && disks[i] == entry.AsDisk() && NamedUpTo(disks, i, counters, named)
    ensures NamedUpTo(disks, i + 1, counted, names)
    ensures entry.Physical() in names && forall x | x in named :: x in names && names[x] == named[x]
  {
    NamingOneMore(disks, i, counters, named);
    counted, names := counters, named;
    var physical := entry.Physical();
    if physical !in named {
      var prefix := Prefix(entry.kind);
      counted := counters[prefix := (if prefix in counters then counters[prefix] else 0) + 1];
      names := named[physical := prefix + Decimal(counted[prefix])];
    }
  }

  /** Names every entry in place after its physical device. */
  method AssignLogicalNames(entries: seq<DiskEntry>)
    modifies entries
    ensures ToldApart(entries) && NamedByRule(entries)
    ensures CarryNames(entries, |entries|, Naming(Disks(entries)).1)
  {
    var counters: map<string, nat> := map[];
    var named: map<string, string> := map[];
    ghost var disks := Disks(entries);
    for i := 0 to |entries|
      invariant NamedUpTo(disks, i, counters, named)
      invariant CarryNames(entries, i, named)
    {
      var entry := entries[i];
      counters, named := NameDevice(entry, counters, named, disks, i);
      entry.name := named[entry.Physical()];
    }
    assert disks[..|entries|] == disks;
    EntriesAreToldApart(entries);
    EntriesAreNamedByRule(entries);
  }
}
