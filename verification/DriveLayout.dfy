/** Turning volume sizes into GPT partitions (section 5.3 of the UEFI Specification): numbers, sectors and the byte
    extents the file systems are made in. */
module DriveLayout {
  import opened Arithmetic
  import opened Basics
  import opened DriveSizing
  import opened Text

  const FIRST_SECTOR: nat := 2048

  // Sectors are 512 bytes: a GiB has 2^21 of them, and 1 MiB, the alignment, has 2048.
  function GibSectors(gb: nat): nat { gb * 2_097_152 }
  function SectorBytes(sectors: nat): nat { sectors * 512 }

  datatype Partition = Partition(number: nat, name: string, sizeGb: nat, start: nat)

  function End(p: Partition): nat { p.start + GibSectors(p.sizeGb) }

  // The byte range `mkfs` is told to use: an offset in bytes and a length in KiB.
  function MkfsOffset(p: Partition): nat { SectorBytes(p.start) }
  function MkfsKib(p: Partition): nat { p.sizeGb * 1024 * 1024 }

  // ----- the volume set ------------------------------------------------------------------------------------------

  const SHARED: seq<Volume> := [VolumeSpec.Volume("BASELINE", 5, 50), VolumeSpec.Volume("INSTALLER_CACHE", 50, 200),
                                VolumeSpec.Volume("SESSION_TEMP", 5, 50), VolumeSpec.Volume("SUBSTRATE", 1, 1)]

  function UserVolume(persona: string): Volume { VolumeSpec.Volume("USER_" + Upper(persona), 50, 200) }
  function AppDataVolume(persona: string): Volume { VolumeSpec.Volume("APPDATA_" + Upper(persona), 20, 200) }

  /** Shared volumes first, then every persona's own, then every persona's application data. */
  function VolumeAt(personas: seq<string>, k: nat): Volume
    requires k < 4 + 2 * |personas|
  {
    if k < 4 then SHARED[k]
    else if k < 4 + |personas| then UserVolume(personas[k - 4])
    else AppDataVolume(personas[k - 4 - |personas|])
  }

  function VolumesFor(personas: seq<string>): seq<Volume> {
    seq(4 + 2 * |personas|, k requires 0 <= k < 4 + 2 * |personas| => VolumeAt(personas, k))
  }

  /** No two personas share a volume name. */
  predicate DistinctPersonas(personas: seq<string>) {
    forall i, j :: 0 <= i < j < |personas| ==> Upper(personas[i]) != Upper(personas[j])
  }

  lemma PrefixInjective(prefix: string, a: string, b: string)
    requires prefix + a == prefix + b
    ensures a == b
  {
    assert (prefix + a)[|prefix|..] == a;
    assert (prefix + b)[|prefix|..] == b;
  }

  lemma UserIsNotAppData(a: string, b: string)
    ensures "USER_" + a != "APPDATA_" + b
  {
    assert ("USER_" + a)[0] == 'U';
    assert ("APPDATA_" + b)[0] == 'A';
  }

  lemma SharedIsNotPersonal(i: nat, a: string)
    requires i < 4
    ensures SHARED[i].name != "USER_" + a && SHARED[i].name != "APPDATA_" + a
  {
    assert ("USER_" + a)[0] == 'U';
    assert ("APPDATA_" + a)[0] == 'A';
  }

  /** Volume names are distinct exactly when the personas are, ignoring case. */
  lemma DistinctVolumes(personas: seq<string>)
    ensures Distinct(VolumesFor(personas)) <==> DistinctPersonas(personas)
  {
    if DistinctPersonas(personas) {
      forall i, j | 0 <= i < j < |VolumesFor(personas)|
        ensures VolumesFor(personas)[i].name != VolumesFor(personas)[j].name
      {
        NamesDiffer(personas, i, j);
      }
    }
    if Distinct(VolumesFor(personas)) {
      forall i, j | 0 <= i < j < |personas| ensures Upper(personas[i]) != Upper(personas[j]) {
        PersonasDiffer(personas, i, j);
      }
    }
  }

  lemma PersonasDiffer(personas: seq<string>, i: nat, j: nat)
    requires Distinct(VolumesFor(personas)) && i < j < |personas|
    ensures Upper(personas[i]) != Upper(personas[j])
  {
    assert VolumesFor(personas)[4 + i].name != VolumesFor(personas)[4 + j].name;
  }

  lemma NamesDiffer(personas: seq<string>, i: nat, j: nat)
    requires DistinctPersonas(personas) && i < j < 4 + 2 * |personas|
    ensures VolumeAt(personas, i).name != VolumeAt(personas, j).name
  {
    var n := |personas|;
    if j < 4 {
      SharedDiffer(i, j);
    } else if i < 4 {
      SharedIsNotPersonal(i, Upper(personas[if j < 4 + n then j - 4 else j - 4 - n]));
    } else if j < 4 + n {
      if VolumeAt(personas, i).name == VolumeAt(personas, j).name {
        PrefixInjective("USER_", Upper(personas[i - 4]), Upper(personas[j - 4]));
      }
    } else if i < 4 + n {
      UserIsNotAppData(Upper(personas[i - 4]), Upper(personas[j - 4 - n]));
    } else {
      if VolumeAt(personas, i).name == VolumeAt(personas, j).name {
        PrefixInjective("APPDATA_", Upper(personas[i - 4 - n]), Upper(personas[j - 4 - n]));
      }
    }
  }

  lemma SharedDiffer(i: nat, j: nat)
    requires i < j < 4
    ensures SHARED[i].name != SHARED[j].name
  {
    assert SHARED[0].name[0] == 'B' && SHARED[1].name[0] == 'I' && |SHARED[2].name| == 12 && |SHARED[3].name| == 9;
  }

  // ----- the plan ------------------------------------------------------------------------------------------------

  predicate Covers(sizes: map<string, nat>, volumes: seq<Volume>) {
    forall i :: 0 <= i < |volumes| ==> volumes[i].name in sizes
  }

  function SizeFor(sizes: map<string, nat>, v: Volume): nat { if v.name in sizes then sizes[v.name] else 0 }

  /** The planned sizes of all the volumes of a list together, a repeated name counting each time. */
  function Sum(sizes: map<string, nat>, volumes: seq<Volume>): nat {
    if volumes == [] then 0 else Sum(sizes, volumes[..|volumes| - 1]) + SizeFor(sizes, volumes[|volumes| - 1])
  }

  function Placed(i: nat, sizes: map<string, nat>, volumes: seq<Volume>): Partition
    requires i < |volumes|
  {
    Partition(i + 1, volumes[i].name, SizeFor(sizes, volumes[i]), FIRST_SECTOR + GibSectors(Sum(sizes, volumes[..i])))
  }

  /** One partition per volume, numbered from one, as large as planned, after all those before it. */
  predicate LaidOut(plan: seq<Partition>, sizes: map<string, nat>, volumes: seq<Volume>) {
    && Covers(sizes, volumes)
    && |plan| == |volumes|
    && (forall i :: 0 <= i < |plan| ==> plan[i] == Placed(i, sizes, volumes))
  }

  lemma {:induction false} DictKnows(vs: seq<Volume>, i: nat)
    requires i < |vs|
    ensures IndexOf(Dict(vs), vs[i].name) < |Dict(vs)|
  {
    var init, last := vs[..|vs| - 1], vs[|vs| - 1];
    if i < |vs| - 1 {
      DictKnows(init, i);
      var d := Dict(init);
      var k := IndexOf(d, vs[i].name);
      assert Put(d, last)[k].name == vs[i].name;
    } else {
      var k := IndexOf(Dict(init), last.name);
      assert Put(Dict(init), last)[k].name == last.name;
    }
  }

  lemma PlanCovers(sizes: map<string, nat>, free: int, volumes: seq<Volume>)
    requires IsPlan(sizes, free, Dict(volumes))
    ensures Covers(sizes, volumes)
  {
    forall i | 0 <= i < |volumes| ensures volumes[i].name in sizes {
      DictKnows(volumes, i);
      assert Dict(volumes)[IndexOf(Dict(volumes), volumes[i].name)].name in sizes;
    }
  }

  /** The plan for a drive with its sizes, or nothing when no volume gets any space. */
  method PlanPartitions(sizeBytes: int, volumes: seq<Volume>)
    returns (plan: Option<seq<Partition>>, sizes: map<string, nat>)
    ensures IsPlan(sizes, sizeBytes - SAFETY_MARGIN_BYTES, Dict(volumes))
    ensures plan.None? <==> forall name :: name in sizes ==> sizes[name] == 0
    ensures plan.Some? ==> LaidOut(plan.value, sizes, volumes)
  {
    sizes := ComputeAdaptivePlan(sizeBytes - SAFETY_MARGIN_BYTES, volumes);
    PlanCovers(sizes, sizeBytes - SAFETY_MARGIN_BYTES, volumes);
    plan := None;
    if forall name :: name in sizes ==> sizes[name] == 0 { return; }
    var ps := Place(sizes, volumes);
    plan := Some(ps);
  }

  method Place(sizes: map<string, nat>, volumes: seq<Volume>) returns (plan: seq<Partition>)
    requires Covers(sizes, volumes)
    ensures LaidOut(plan, sizes, volumes)
  {
    plan := [];
    var start, k := FIRST_SECTOR, 0;
    while k < |volumes|
      invariant 0 <= k <= |volumes| && |plan| == k
      invariant start == FIRST_SECTOR + GibSectors(Sum(sizes, volumes[..k]))
      invariant forall i :: 0 <= i < k ==> plan[i] == Placed(i, sizes, volumes)
    {
      var gb := sizes[volumes[k].name];
      plan := plan + [Partition(k + 1, volumes[k].name, gb, start)];
      SumStep(sizes, volumes, k);
      start := start + GibSectors(gb);
      k := k + 1;
    }
  }

  lemma SumStep(sizes: map<string, nat>, volumes: seq<Volume>, k: nat)
    requires k < |volumes|
    ensures Sum(sizes, volumes[..k + 1]) == Sum(sizes, volumes[..k]) + SizeFor(sizes, volumes[k])
  {
    assert volumes[..k + 1][..k] == volumes[..k];
  }

  // ----- what a plan guarantees ----------------------------------------------------------------------------------

  lemma {:induction false} SumGrows(sizes: map<string, nat>, volumes: seq<Volume>, i: nat, j: nat)
    requires i <= j <= |volumes|
    ensures Sum(sizes, volumes[..i]) <= Sum(sizes, volumes[..j])
  {
    if i < j {
      SumGrows(sizes, volumes, i, j - 1);
      SumStep(sizes, volumes, j - 1);
    }
  }

  /** Partitions are 1 MiB aligned, each begins where the one before it ends, none overlap, and each file system gets
      exactly the bytes of its partition. */
  lemma PartitionsDisjointAndAligned(plan: seq<Partition>, sizes: map<string, nat>, volumes: seq<Volume>, i: nat,
                                     j: nat)
    requires LaidOut(plan, sizes, volumes) && i < j < |plan|
    ensures plan[i + 1].start == End(plan[i]) <= plan[j].start
    ensures plan[i].start % 2048 == 0 && End(plan[j]) % 2048 == 0
    ensures MkfsOffset(plan[i]) + MkfsKib(plan[i]) * 1024 == SectorBytes(End(plan[i]))
  {
    assert plan[i + 1] == Placed(i + 1, sizes, volumes);
    SumStep(sizes, volumes, i);
    SumStep(sizes, volumes, j);
    SumGrows(sizes, volumes, i + 1, j);
    Aligned(Sum(sizes, volumes[..i]));
    Aligned(Sum(sizes, volumes[..j + 1]));
  }

  lemma Aligned(gb: nat)
    ensures (FIRST_SECTOR + GibSectors(gb)) % 2048 == 0
  {
    QuotientIs(FIRST_SECTOR + GibSectors(gb), 2048, 1 + 1024 * gb, 0);
  }

  lemma EndOfPlan(plan: seq<Partition>, sizes: map<string, nat>, volumes: seq<Volume>)
    requires LaidOut(plan, sizes, volumes) && plan != []
    ensures End(plan[|plan| - 1]) == FIRST_SECTOR + GibSectors(Sum(sizes, volumes))
  {
    assert plan[|plan| - 1] == Placed(|plan| - 1, sizes, volumes);
    SumStep(sizes, volumes, |plan| - 1);
    assert volumes[..|volumes|] == volumes;
  }

  // ----- repeated names ------------------------------------------------------------------------------------------

  lemma {:induction false} SumOfReplaced(sizes: map<string, nat>, d: seq<Volume>, i: nat, v: Volume)
    requires i < |d| && d[i].name == v.name
    ensures Sum(sizes, d[i := v]) == Sum(sizes, d)
  {
    var last := |d| - 1;
    if i < last {
      SumOfReplaced(sizes, d[..last], i, v);
      assert d[i := v][..last] == d[..last][i := v];
    } else {
      assert d[i := v][..last] == d[..last];
    }
  }

  lemma SumOfPut(sizes: map<string, nat>, d: seq<Volume>, v: Volume)
    ensures Sum(sizes, Put(d, v)) == Sum(sizes, d) + if IndexOf(d, v.name) < |d| then 0 else SizeFor(sizes, v)
  {
    if IndexOf(d, v.name) < |d| {
      SumOfReplaced(sizes, d, IndexOf(d, v.name), v);
    } else {
      assert (d + [v])[..|d|] == d;
    }
  }

  lemma {:induction false} DictOnlyKnows(vs: seq<Volume>, i: nat) returns (k: nat)
    requires i < |Dict(vs)|
    ensures k < |vs| && vs[k].name == Dict(vs)[i].name
  {
    var init, last := vs[..|vs| - 1], vs[|vs| - 1];
    if Dict(vs)[i] == last {
      k := |vs| - 1;
    } else {
      k := DictOnlyKnows(init, i);
    }
  }

  lemma NewName(vs: seq<Volume>)
    requires vs != []
    ensures var init, last := vs[..|vs| - 1], vs[|vs| - 1];
            Distinct(vs) <==> Distinct(init) && IndexOf(Dict(init), last.name) == |Dict(init)|
  {
    var init, last := vs[..|vs| - 1], vs[|vs| - 1];
    var k := IndexOf(Dict(init), last.name);
    assert forall i :: 0 <= i < |init| ==> init[i] == vs[i];
    if k < |Dict(init)| {
      var j := DictOnlyKnows(init, k);
      assert vs[j].name == vs[|vs| - 1].name;
    } else {
      forall i | 0 <= i < |init| ensures vs[i].name != last.name { DictKnows(init, i); }
    }
  }

  /** The volumes of a list take as much space as were planned for exactly when no name is repeated; otherwise they
      take more. */
  lemma {:induction false} RepeatsTakeMore(sizes: map<string, nat>, vs: seq<Volume>)
    requires forall i :: 0 <= i < |vs| ==> SizeFor(sizes, vs[i]) > 0
    ensures Sum(sizes, vs) >= Sum(sizes, Dict(vs))
    ensures Sum(sizes, vs) == Sum(sizes, Dict(vs)) <==> Distinct(vs)
  {
    if vs != [] {
      var init, last := vs[..|vs| - 1], vs[|vs| - 1];
      RepeatsTakeMore(sizes, init);
      SumOfPut(sizes, Dict(init), last);
      NewName(vs);
    }
  }

  // ----- room for the backup table -------------------------------------------------------------------------------

  /** The last byte of the plan leaves two safety margins less the first megabyte free. */
  predicate LeavesMargin(plan: seq<Partition>, sizeBytes: int) {
    plan != [] ==> SectorBytes(End(plan[|plan| - 1])) + 2 * 1_073_741_824 <= sizeBytes + SectorBytes(FIRST_SECTOR)
  }

  /** A plan for a drive of `sizeBytes`, giving some volume space. */
  ghost predicate PlanFor(plan: seq<Partition>, sizes: map<string, nat>, sizeBytes: int, volumes: seq<Volume>) {
    && IsPlan(sizes, sizeBytes - SAFETY_MARGIN_BYTES, Dict(volumes))
    && LaidOut(plan, sizes, volumes)
    && exists name :: name in sizes && sizes[name] != 0
  }

  /** Every plan made for a drive of `sizeBytes` leaves the margin. */
  ghost predicate AlwaysFits(sizeBytes: int, volumes: seq<Volume>) {
    forall plan, sizes :: PlanFor(plan, sizes, sizeBytes, volumes) ==> LeavesMargin(plan, sizeBytes)
  }

  lemma {:induction false} SumIsTotal(sizes: map<string, nat>, free: int, d: seq<Volume>, k: nat)
    requires IsPlan(sizes, free, d) && k <= |d|
    ensures Sum(sizes, d[..k]) == TotalSize(free, d, k)
  {
    if k > 0 {
      SumIsTotal(sizes, free, d, k - 1);
      SumStep(sizes, d, k - 1);
    }
  }

  lemma SomethingFits(sizes: map<string, nat>, free: int, d: seq<Volume>, name: string)
    requires IsPlan(sizes, free, d) && name in sizes && sizes[name] != 0
    ensures UsableGb(free) >= TotalMin(d) && Sum(sizes, d) > 0
  {
    var i := IndexOf(d, name);
    assert sizes[d[i].name] == SizeOf(free, d, d[i]);
    SumStep(sizes, d, i);
    SumGrows(sizes, d, i + 1, |d|);
    assert d[..|d|] == d;
  }

  lemma MarginLeft(total: nat, sizeBytes: int)
    requires total > 0
    ensures var end := SectorBytes(FIRST_SECTOR + GibSectors(total)) + 2 * 1_073_741_824;
            total <= UsableGb(sizeBytes - SAFETY_MARGIN_BYTES) <==> end <= sizeBytes + SectorBytes(FIRST_SECTOR)
  {
    var usable := Max(sizeBytes - 2 * 1_073_741_824, 0);
    assert UsableGb(sizeBytes - SAFETY_MARGIN_BYTES) == usable / 1_073_741_824;
    assert SectorBytes(GibSectors(total)) == total * 1_073_741_824;
  }

  /** A plan leaves room for the backup GPT exactly when its partitions together need no more than is usable. */
  lemma FitsWhenUsable(plan: seq<Partition>, sizes: map<string, nat>, sizeBytes: int, volumes: seq<Volume>)
    requires LaidOut(plan, sizes, volumes) && plan != [] && Sum(sizes, volumes) > 0
    ensures LeavesMargin(plan, sizeBytes) <==> Sum(sizes, volumes) <= UsableGb(sizeBytes - SAFETY_MARGIN_BYTES)
  {
    EndOfPlan(plan, sizes, volumes);
    MarginLeft(Sum(sizes, volumes), sizeBytes);
  }

  lemma DistinctNeedsNoMore(sizes: map<string, nat>, free: int, volumes: seq<Volume>, name: string)
    requires Distinct(volumes) && IsPlan(sizes, free, Dict(volumes)) && name in sizes && sizes[name] != 0
    ensures 0 < Sum(sizes, volumes) <= UsableGb(free)
  {
    DictDistinct(volumes);
    SomethingFits(sizes, free, volumes, name);
    SizesAreTight(free, volumes);
    SumIsTotal(sizes, free, volumes, |volumes|);
    assert volumes[..|volumes|] == volumes;
  }

  lemma DistinctFits(plan: seq<Partition>, sizes: map<string, nat>, sizeBytes: int, volumes: seq<Volume>)
    requires Distinct(volumes) && PlanFor(plan, sizes, sizeBytes, volumes)
    ensures LeavesMargin(plan, sizeBytes)
  {
    if plan == [] { return; }
    var name :| name in sizes && sizes[name] != 0;
    DistinctNeedsNoMore(sizes, sizeBytes - SAFETY_MARGIN_BYTES, volumes, name);
    FitsWhenUsable(plan, sizes, sizeBytes, volumes);
  }

  /** The smallest drive that gets a plan at all. */
  function SmallestDrive(volumes: seq<Volume>): nat { (TotalMin(Dict(volumes)) + 2) * 1_073_741_824 }

  lemma SmallestUsable(volumes: seq<Volume>)
    ensures UsableGb(SmallestDrive(volumes) - SAFETY_MARGIN_BYTES) == TotalMin(Dict(volumes))
  {
    var m := TotalMin(Dict(volumes));
    assert Max(SmallestDrive(volumes) - SAFETY_MARGIN_BYTES - SAFETY_MARGIN_BYTES, 0) == m * 1_073_741_824;
  }

  lemma SizesExist(usable: nat, totalMin: nat, totalRoom: nat, d: seq<Volume>) returns (sizes: map<string, nat>)
    requires Distinct(d)
    ensures IsPlanFor(sizes, usable, totalMin, totalRoom, d)
  {
    sizes := map i | 0 <= i < |d| :: d[i].name := SizeIn(usable, totalMin, totalRoom, d[i]);
    forall name | name in sizes ensures IndexOf(d, name) < |d| {
      var i :| 0 <= i < |d| && d[i].name == name;
    }
  }

  lemma PlanExists(sizeBytes: int, volumes: seq<Volume>) returns (plan: seq<Partition>, sizes: map<string, nat>)
    ensures IsPlan(sizes, sizeBytes - SAFETY_MARGIN_BYTES, Dict(volumes)) && LaidOut(plan, sizes, volumes)
  {
    var free, d := sizeBytes - SAFETY_MARGIN_BYTES, Dict(volumes);
    DictDistinct(volumes);
    sizes := SizesExist(UsableGb(free), TotalMin(d), TotalRoom(d), d);
    PlanCovers(sizes, free, volumes);
    var made := sizes;
    plan := seq(|volumes|, i requires 0 <= i < |volumes| => Placed(i, made, volumes));
  }

  /** With nothing beyond the minimums, every volume gets exactly its minimum. */
  lemma SmallestSize(volumes: seq<Volume>, v: Volume)
    ensures SizeOf(SmallestDrive(volumes) - SAFETY_MARGIN_BYTES, Dict(volumes), v) == v.min
  {
    SmallestUsable(volumes);
    var t := TotalRoom(Dict(volumes));
    if t > 0 { QuotientIs(0 * (v.max - v.min), t, 0, 0); }
  }

  lemma {:induction false} SmallestTotal(volumes: seq<Volume>, k: nat)
    requires k <= |Dict(volumes)|
    ensures TotalSize(SmallestDrive(volumes) - SAFETY_MARGIN_BYTES, Dict(volumes), k) == TotalMin(Dict(volumes)[..k])
  {
    var d := Dict(volumes);
    if k > 0 {
      SmallestTotal(volumes, k - 1);
      SmallestSize(volumes, d[k - 1]);
      assert d[..k][..k - 1] == d[..k - 1];
    }
  }

  lemma {:induction false} DictFromList(vs: seq<Volume>, i: nat)
    requires i < |Dict(vs)|
    ensures Dict(vs)[i] in vs
  {
    var init, last := vs[..|vs| - 1], vs[|vs| - 1];
    if Dict(vs)[i] != last { DictFromList(init, i); }
  }

  predicate PositiveMinimums(volumes: seq<Volume>) { forall v :: v in volumes ==> v.min > 0 }

  lemma SmallestSizesPositive(sizes: map<string, nat>, volumes: seq<Volume>, i: nat)
    requires PositiveMinimums(volumes) && i < |volumes|
    requires IsPlan(sizes, SmallestDrive(volumes) - SAFETY_MARGIN_BYTES, Dict(volumes))
    ensures SizeFor(sizes, volumes[i]) > 0
  {
    DictKnows(volumes, i);
    var k := IndexOf(Dict(volumes), volumes[i].name);
    DictFromList(volumes, k);
    SmallestSize(volumes, Dict(volumes)[k]);
    assert sizes[Dict(volumes)[k].name] == Dict(volumes)[k].min;
  }

  lemma RepeatsOverflow(volumes: seq<Volume>)
    requires PositiveMinimums(volumes) && !Distinct(volumes)
    ensures !AlwaysFits(SmallestDrive(volumes), volumes)
  {
    var size, d := SmallestDrive(volumes), Dict(volumes);
    var plan, sizes := PlanExists(size, volumes);
    forall i | 0 <= i < |volumes| ensures SizeFor(sizes, volumes[i]) > 0 { SmallestSizesPositive(sizes, volumes, i); }
    RepeatsTakeMore(sizes, volumes);
    SumIsTotal(sizes, size - SAFETY_MARGIN_BYTES, d, |d|);
    SmallestTotal(volumes, |d|);
    SmallestUsable(volumes);
    assert d[..|d|] == d;
    FitsWhenUsable(plan, sizes, size, volumes);
    assert volumes[0].name in sizes;
    assert PlanFor(plan, sizes, size, volumes);
  }

  /** Plans leave room for the backup GPT on drives of every size exactly when no volume name is repeated. */
  lemma FitsExactlyWhenDistinct(volumes: seq<Volume>)
    requires PositiveMinimums(volumes)
    ensures (forall sizeBytes :: AlwaysFits(sizeBytes, volumes)) <==> Distinct(volumes)
  {
    if Distinct(volumes) {
      forall sizeBytes, plan, sizes | PlanFor(plan, sizes, sizeBytes, volumes) ensures LeavesMargin(plan, sizeBytes) {
        DistinctFits(plan, sizes, sizeBytes, volumes);
      }
    } else {
      RepeatsOverflow(volumes);
    }
  }

  /** So the layout of a set of personas is safe on every drive exactly when no two of them agree but for case. */
  lemma PersonaPlansFitExactly(personas: seq<string>)
    ensures (forall sizeBytes :: AlwaysFits(sizeBytes, VolumesFor(personas))) <==> DistinctPersonas(personas)
  {
    DistinctVolumes(personas);
    assert PositiveMinimums(VolumesFor(personas));
    FitsExactlyWhenDistinct(VolumesFor(personas));
  }

  // ----- repeated personas ---------------------------------------------------------------------------------------

  /** The last partition ends on the drive. */
  predicate StaysOnDrive(plan: seq<Partition>, sizeBytes: int) {
    plan != [] ==> SectorBytes(End(plan[|plan| - 1])) <= sizeBytes
  }

  ghost predicate AlwaysOnDrive(sizeBytes: int, volumes: seq<Volume>) {
    forall plan, sizes :: PlanFor(plan, sizes, sizeBytes, volumes) ==> StaysOnDrive(plan, sizeBytes)
  }

  /** The volume at `j` has a name that came before. */
  predicate Repeats(vs: seq<Volume>, j: nat)
    requires j < |vs|
  { exists i :: 0 <= i < j && vs[i].name == vs[j].name }

  lemma {:induction false} RepeatTakes(sizes: map<string, nat>, vs: seq<Volume>, j: nat)
    requires (forall i :: 0 <= i < |vs| ==> SizeFor(sizes, vs[i]) > 0) && j < |vs| && Repeats(vs, j)
    ensures Sum(sizes, vs) >= Sum(sizes, Dict(vs)) + SizeFor(sizes, vs[j])
  {
    var init, last := vs[..|vs| - 1], vs[|vs| - 1];
    SumOfPut(sizes, Dict(init), last);
    if j < |vs| - 1 {
      assert Repeats(init, j);
      RepeatTakes(sizes, init, j);
    } else {
      RepeatsTakeMore(sizes, init);
      RepeatIsKnown(vs);
    }
  }

  lemma RepeatIsKnown(vs: seq<Volume>)
    requires vs != [] && Repeats(vs, |vs| - 1)
    ensures IndexOf(Dict(vs[..|vs| - 1]), vs[|vs| - 1].name) < |Dict(vs[..|vs| - 1])|
  {
    var i :| 0 <= i < |vs| - 1 && vs[i].name == vs[|vs| - 1].name;
    DictKnows(vs[..|vs| - 1], i);
  }

  lemma {:induction false} TwoRepeatsTake(sizes: map<string, nat>, vs: seq<Volume>, j: nat, k: nat)
    requires forall i :: 0 <= i < |vs| ==> SizeFor(sizes, vs[i]) > 0
    requires j < k < |vs| && Repeats(vs, j) && Repeats(vs, k)
    ensures Sum(sizes, vs) >= Sum(sizes, Dict(vs)) + SizeFor(sizes, vs[j]) + SizeFor(sizes, vs[k])
  {
    var init, last := vs[..|vs| - 1], vs[|vs| - 1];
    SumOfPut(sizes, Dict(init), last);
    assert Repeats(init, j);
    if k < |vs| - 1 {
      assert Repeats(init, k);
      TwoRepeatsTake(sizes, init, j, k);
    } else {
      RepeatTakes(sizes, init, j);
      RepeatIsKnown(vs);
    }
  }

  /** One name, one size: on the smallest drive every volume of personas gets its own minimum. */
  lemma SmallestPersonaSize(sizes: map<string, nat>, personas: seq<string>, k: nat)
    requires k < 4 + 2 * |personas|
    requires IsPlan(sizes, SmallestDrive(VolumesFor(personas)) - SAFETY_MARGIN_BYTES, Dict(VolumesFor(personas)))
    ensures SizeFor(sizes, VolumeAt(personas, k)) == VolumeAt(personas, k).min
  {
    var vs := VolumesFor(personas);
    DictKnows(vs, k);
    var d := IndexOf(Dict(vs), vs[k].name);
    DictFromList(vs, d);
    var i :| 0 <= i < |vs| && vs[i] == Dict(vs)[d];
    SameNameSameVolume(personas, i, k);
    SmallestSize(vs, vs[k]);
    assert sizes[Dict(vs)[d].name] == vs[k].min;
  }

  lemma SameNameSameVolume(personas: seq<string>, i: nat, k: nat)
    requires i < 4 + 2 * |personas| && k < 4 + 2 * |personas|
    requires VolumeAt(personas, i).name == VolumeAt(personas, k).name
    ensures VolumeAt(personas, i) == VolumeAt(personas, k)
  {
    if i > k { SameNameSameVolume(personas, k, i); return; }
    var n := |personas|;
    if k < 4 {
      if i < k { SharedDiffer(i, k); }
    } else if i < 4 {
      SharedIsNotPersonal(i, Upper(personas[if k < 4 + n then k - 4 else k - 4 - n]));
    } else if i < 4 + n <= k {
      UserIsNotAppData(Upper(personas[i - 4]), Upper(personas[k - 4 - n]));
    }
  }

  /** A repeated persona takes its two volumes once more than was planned for. */
  lemma RepeatedPersonaTakes(sizes: map<string, nat>, personas: seq<string>)
    requires !DistinctPersonas(personas)
    requires IsPlan(sizes, SmallestDrive(VolumesFor(personas)) - SAFETY_MARGIN_BYTES, Dict(VolumesFor(personas)))
    ensures Sum(sizes, VolumesFor(personas)) >= Sum(sizes, Dict(VolumesFor(personas))) + 70
  {
    var vs, n := VolumesFor(personas), |personas|;
    var a, b :| 0 <= a < b < n && Upper(personas[a]) == Upper(personas[b]);
    forall i | 0 <= i < |vs| ensures SizeFor(sizes, vs[i]) > 0 { SmallestSizesPositive(sizes, vs, i); }
    BothRepeat(personas, a, b);
    TwoRepeatsTake(sizes, vs, 4 + b, 4 + n + b);
    SmallestPersonaSize(sizes, personas, 4 + b);
    SmallestPersonaSize(sizes, personas, 4 + n + b);
  }

  lemma BothRepeat(personas: seq<string>, a: nat, b: nat)
    requires a < b < |personas| && Upper(personas[a]) == Upper(personas[b])
    ensures Repeats(VolumesFor(personas), 4 + b) && Repeats(VolumesFor(personas), 4 + |personas| + b)
  {
    var vs, n := VolumesFor(personas), |personas|;
    assert vs[4 + a].name == vs[4 + b].name && vs[4 + n + a].name == vs[4 + n + b].name;
  }

  /** A repeated persona makes the partitions of the smallest drive end at least 68 GiB beyond it. */
  lemma RepeatedPersonaOverruns(personas: seq<string>) returns (plan: seq<Partition>, sizes: map<string, nat>)
    requires !DistinctPersonas(personas)
    ensures var sizeBytes := SmallestDrive(VolumesFor(personas));
            && PlanFor(plan, sizes, sizeBytes, VolumesFor(personas)) && plan != []
            && SectorBytes(End(plan[|plan| - 1])) >= sizeBytes + 68 * 1_073_741_824
  {
    var vs := VolumesFor(personas);
    plan, sizes := PlanExists(SmallestDrive(vs), vs);
    RepeatedPersonaTakes(sizes, personas);
    SmallestSum(sizes, vs);
    SmallestPersonaSize(sizes, personas, 0);
    assert vs[0].name in sizes;
    EndOfPlan(plan, sizes, vs);
    EndsBeyond(Sum(sizes, vs), TotalMin(Dict(vs)));
  }

  lemma SmallestSum(sizes: map<string, nat>, volumes: seq<Volume>)
    requires IsPlan(sizes, SmallestDrive(volumes) - SAFETY_MARGIN_BYTES, Dict(volumes))
    ensures Sum(sizes, Dict(volumes)) == TotalMin(Dict(volumes))
  {
    var d := Dict(volumes);
    SumIsTotal(sizes, SmallestDrive(volumes) - SAFETY_MARGIN_BYTES, d, |d|);
    SmallestTotal(volumes, |d|);
    assert d[..|d|] == d;
  }

  lemma EndsBeyond(total: nat, min: nat)
    requires total >= min + 70
    ensures SectorBytes(FIRST_SECTOR + GibSectors(total)) >= (min + 2) * 1_073_741_824 + 68 * 1_073_741_824
  {
  }

  /** So partitions stay on drives of every size exactly when no two personas agree but for case. */
  lemma PersonaPlansStayExactly(personas: seq<string>)
    ensures (forall sizeBytes :: AlwaysOnDrive(sizeBytes, VolumesFor(personas))) <==> DistinctPersonas(personas)
  {
    if DistinctPersonas(personas) {
      PersonaPlansFitExactly(personas);
      forall sizeBytes ensures AlwaysOnDrive(sizeBytes, VolumesFor(personas)) {
        assert AlwaysFits(sizeBytes, VolumesFor(personas));
      }
    } else {
      var plan, sizes := RepeatedPersonaOverruns(personas);
      assert !AlwaysOnDrive(SmallestDrive(VolumesFor(personas)), VolumesFor(personas));
    }
  }

  const DEFAULT_PERSONAS: seq<string> := ["admin", "personal"]

  /** The default set is. */
  lemma DefaultPlansFit(sizeBytes: int)
    ensures AlwaysFits(sizeBytes, VolumesFor(DEFAULT_PERSONAS))
  {
    assert Upper("admin")[0] == 'A' && Upper("personal")[0] == 'P';
    assert DistinctPersonas(DEFAULT_PERSONAS);
    PersonaPlansFitExactly(DEFAULT_PERSONAS);
  }
}
