/** What stands on a laid out drive: the partitions in their order, by name and number, and how large they become. */
module DrivePlan {
  import opened Arithmetic
  import opened Basics
  import opened DriveLayout
  import opened DriveSizing
  import opened Text

  // ----- order ---------------------------------------------------------------------------------------------------

  /** The four shared volumes, then every persona's own volume in the order of the personas, then every persona's
      application data in the same order. */
  function NameAt(personas: seq<string>, k: nat): string
    requires k < 4 + 2 * |personas|
  {
    var n := |personas|;
    if k < 4 then ["BASELINE", "INSTALLER_CACHE", "SESSION_TEMP", "SUBSTRATE"][k]
    else if k < 4 + n then "USER_" + Upper(personas[k - 4])
    else "APPDATA_" + Upper(personas[k - 4 - n])
  }

  // The least and the most a volume may be given, in GiB.
  datatype Range = Range(min: nat, max: nat)

  function RangeAt(personas: seq<string>, k: nat): Range {
    if k == 1 then Range(50, 200)
    else if k == 3 then Range(1, 1)
    else if k < 4 then Range(5, 50)
    else if k < 4 + |personas| then Range(50, 200)
    else Range(20, 200)
  }

  /** Which volumes there are, where, and how large each may become. */
  lemma VolumesExactly(personas: seq<string>)
    ensures |VolumesFor(personas)| == 4 + 2 * |personas|
    ensures forall k :: 0 <= k < 4 + 2 * |personas| ==>
              var v := VolumesFor(personas)[k];
              v.name == NameAt(personas, k) && v.min == RangeAt(personas, k).min && v.max == RangeAt(personas, k).max
  {
  }

  /** Partition `k` has number `k + 1`, the name that comes at that place and the size planned for it; the first one
      starts at 1 MiB and every other one where the one before it ends. */
  predicate InOrder(plan: seq<Partition>, sizes: map<string, nat>, personas: seq<string>) {
    && |plan| == 4 + 2 * |personas|
    && (forall k :: 0 <= k < |plan| ==> StandsAt(plan, sizes, personas, k))
  }

  predicate StandsAt(plan: seq<Partition>, sizes: map<string, nat>, personas: seq<string>, k: nat)
    requires k < |plan| == 4 + 2 * |personas|
  {
    var p := plan[k];
    && p.number == k + 1 && p.name == NameAt(personas, k) && p.name in sizes && p.sizeGb == sizes[p.name]
    && p.start == if k == 0 then 2048 else plan[k - 1].start + plan[k - 1].sizeGb * 2_097_152
  }

  /** A plan lays out exactly that. */
  lemma PlanInOrder(plan: seq<Partition>, sizes: map<string, nat>, personas: seq<string>)
    requires LaidOut(plan, sizes, VolumesFor(personas))
    ensures InOrder(plan, sizes, personas)
  {
    var vs := VolumesFor(personas);
    forall k | 0 <= k < |plan| ensures StandsAt(plan, sizes, personas, k) {
      assert plan[k] == Placed(k, sizes, vs) && vs[k].name == NameAt(personas, k);
      if k > 0 {
        assert plan[k - 1] == Placed(k - 1, sizes, vs);
        SumStep(sizes, vs, k - 1);
      } else {
        assert vs[..0] == [];
      }
    }
  }

  /** The plan for some personas: its sizes come from the space left after two margins of one GiB each. */
  method PlanFor(sizeBytes: int, personas: seq<string>) returns (plan: Option<seq<Partition>>, sizes: map<string, nat>)
    ensures IsPlan(sizes, sizeBytes - SAFETY_MARGIN_BYTES, Dict(VolumesFor(personas)))
    ensures plan.Some? <==> exists name :: name in sizes && sizes[name] != 0
    ensures plan.Some? ==> InOrder(plan.value, sizes, personas)
  {
    plan, sizes := PlanPartitions(sizeBytes, VolumesFor(personas));
    if plan.Some? { PlanInOrder(plan.value, sizes, personas); }
  }

  // ----- sizes ---------------------------------------------------------------------------------------------------

  /** Between its minimum and its maximum a volume gets the whole units of its proportional share: its room to grow is
      to everybody's as what it gets is to what there is; and it gets its maximum only when that is its share. */
  lemma ProportionalExactly(free: int, d: seq<Volume>, v: Volume)
    requires UsableGb(free) >= TotalMin(d) && TotalRoom(d) > 0
    ensures var left, all, room := UsableGb(free) - TotalMin(d), TotalRoom(d), v.max - v.min;
            var more := SizeOf(free, d, v) - v.min;
            && 0 <= more <= room
            && (more < room ==> more * all <= left * room < (more + 1) * all)
            && (more == room ==> room * all <= left * room)
  {
    WholeShare(UsableGb(free) - TotalMin(d), TotalRoom(d), v.max - v.min);
  }

  lemma WholeShare(left: nat, all: nat, room: nat)
    requires all > 0
    ensures left * room >= 0
    ensures var more := Min(room, left * room / all);
            && 0 <= more <= room
            && (more < room ==> more * all <= left * room < (more + 1) * all)
            && (more == room ==> room * all <= left * room)
  {
    MulMono(0, left, room);
    Euclid(left * room, all);
    var share := left * room / all;
    assert (share + 1) * all == share * all + all;
    if share >= room { MulMono(room, share, all); }
  }

  lemma TotalsOfOneMore(d: seq<Volume>, v: Volume)
    ensures TotalMin(d + [v]) == TotalMin(d) + v.min && TotalRoom(d + [v]) == TotalRoom(d) + (v.max - v.min)
  {
    assert (d + [v])[..|d|] == d;
  }

  lemma TotalsOfFour(d: seq<Volume>, a: Volume, b: Volume, c: Volume, e: Volume)
    ensures TotalMin(d + [a, b, c, e]) == TotalMin(d) + a.min + b.min + c.min + e.min
    ensures TotalRoom(d + [a, b, c, e])
            == TotalRoom(d) + (a.max - a.min) + (b.max - b.min) + (c.max - c.min) + (e.max - e.min)
  {
    TotalsOfOneMore(d, a);
    TotalsOfOneMore(d + [a], b);
    TotalsOfOneMore(d + [a] + [b], c);
    TotalsOfOneMore(d + [a] + [b] + [c], e);
    assert d + [a] + [b] + [c] + [e] == d + [a, b, c, e];
  }

  /** The default volumes, by name, minimum and maximum. */
  const DEFAULT: seq<Volume> :=
    [VolumeSpec.Volume("BASELINE", 5, 50), VolumeSpec.Volume("INSTALLER_CACHE", 50, 200),
     VolumeSpec.Volume("SESSION_TEMP", 5, 50), VolumeSpec.Volume("SUBSTRATE", 1, 1),
     VolumeSpec.Volume("USER_ADMIN", 50, 200), VolumeSpec.Volume("USER_PERSONAL", 50, 200),
     VolumeSpec.Volume("APPDATA_ADMIN", 20, 200), VolumeSpec.Volume("APPDATA_PERSONAL", 20, 200)]

  lemma DefaultVolumes()
    ensures VolumesFor(DEFAULT_PERSONAS) == DEFAULT && Dict(DEFAULT) == DEFAULT
  {
    UpperNames();
    assert "USER_" + "ADMIN" == "USER_ADMIN" && "USER_" + "PERSONAL" == "USER_PERSONAL";
    assert "APPDATA_" + "ADMIN" == "APPDATA_ADMIN" && "APPDATA_" + "PERSONAL" == "APPDATA_PERSONAL";
    DefaultDistinct();
    DictDistinct(DEFAULT);
  }

  lemma UpperNames()
    ensures Upper("admin") == "ADMIN" && Upper("personal") == "PERSONAL"
  {
    UpperTogether("per", "son");
    UpperTogether("person", "al");
    assert "per" + "son" == "person" && "person" + "al" == "personal";
    assert Upper("per") == "PER" && Upper("son") == "SON" && Upper("al") == "AL";
    UpperTogether("adm", "in");
    assert "adm" + "in" == "admin" && Upper("adm") == "ADM" && Upper("in") == "IN";
  }

  lemma {:induction false} UpperTogether(a: string, b: string)
    ensures Upper(a + b) == Upper(a) + Upper(b)
  {
    if a == "" {
      assert a + b == b;
    } else {
      assert (a + b)[1..] == a[1..] + b;
      UpperTogether(a[1..], b);
    }
  }

  lemma DefaultDistinct()
    ensures Distinct(DEFAULT)
  {
    assert DEFAULT[0].name[0] == 'B' && DEFAULT[1].name[0] == 'I' && DEFAULT[2].name[1] == 'E';
    assert DEFAULT[3].name[0] == 'S' && DEFAULT[3].name[1] == 'U' && DEFAULT[2].name[0] == 'S';
    assert DEFAULT[4].name[0] == 'U' && DEFAULT[4].name[5] == 'A';
    assert DEFAULT[5].name[0] == 'U' && DEFAULT[5].name[5] == 'P';
    assert DEFAULT[6].name[0] == 'A' && DEFAULT[6].name[8] == 'A';
    assert DEFAULT[7].name[0] == 'A' && DEFAULT[7].name[8] == 'P';
  }

  lemma DefaultTotals()
    ensures TotalMin(DEFAULT) == 201 && TotalRoom(DEFAULT) == 900
  {
    var four: seq<Volume> := DEFAULT[..4];
    TotalsOfFour([], DEFAULT[0], DEFAULT[1], DEFAULT[2], DEFAULT[3]);
    assert four == [] + [DEFAULT[0], DEFAULT[1], DEFAULT[2], DEFAULT[3]];
    TotalsOfFour(four, DEFAULT[4], DEFAULT[5], DEFAULT[6], DEFAULT[7]);
    assert DEFAULT == four + [DEFAULT[4], DEFAULT[5], DEFAULT[6], DEFAULT[7]];
  }

  /** The GiB that are usable on a drive of so many GiB and some bytes. */
  lemma UsableOf(gib: nat, rest: nat)
    requires rest < 1_073_741_824
    ensures UsableGb(gib * 1_073_741_824 + rest - SAFETY_MARGIN_BYTES) == if gib < 2 then 0 else gib - 2
  {
    if gib >= 2 { QuotientIs((gib - 2) * 1_073_741_824 + rest, 1_073_741_824, gib - 2, rest); }
  }

  /** The free space that a plan for a drive of so many GiB and some bytes starts from. */
  function FreeOn(gib: nat, rest: nat): int { gib * 1_073_741_824 + rest - SAFETY_MARGIN_BYTES }

  lemma DefaultSize(gib: nat, rest: nat, sizes: map<string, nat>, k: nat)
    requires rest < 1_073_741_824 && k < 8 && IsPlan(sizes, FreeOn(gib, rest), DEFAULT)
    ensures DEFAULT[k].name in sizes
    ensures gib < 203 ==> sizes[DEFAULT[k].name] == 0
    ensures gib >= 203 ==> sizes[DEFAULT[k].name] >= DEFAULT[k].min
    ensures gib == 203 ==> sizes[DEFAULT[k].name] == DEFAULT[k].min
    ensures gib >= 1103 ==> sizes[DEFAULT[k].name] == DEFAULT[k].max
  {
    DefaultTotals();
    UsableOf(gib, rest);
    SizesInRange(FreeOn(gib, rest), DEFAULT);
    if gib >= 1103 { AllAtMax(FreeOn(gib, rest), DEFAULT); }
    if gib == 203 { NothingMore(FreeOn(gib, rest), DEFAULT, DEFAULT[k]); }
  }

  lemma NothingMore(free: int, d: seq<Volume>, v: Volume)
    requires UsableGb(free) == TotalMin(d) && TotalRoom(d) > 0
    ensures SizeOf(free, d, v) == v.min
  {
    QuotientIs(0 * (v.max - v.min), TotalRoom(d), 0, 0);
  }

  /** With the default personas a drive gets a plan exactly from 203 GiB on; there every volume has its minimum, and
      from 1103 GiB on every volume has its maximum. */
  lemma DefaultSizesExactly(gib: nat, rest: nat, sizes: map<string, nat>)
    requires rest < 1_073_741_824 && IsPlan(sizes, FreeOn(gib, rest), Dict(VolumesFor(DEFAULT_PERSONAS)))
    ensures (exists name :: name in sizes && sizes[name] != 0) <==> gib >= 203
    ensures forall k :: 0 <= k < 8 ==> DEFAULT[k].name in sizes
    ensures gib == 203 ==> forall k :: 0 <= k < 8 ==> sizes[DEFAULT[k].name] == DEFAULT[k].min
    ensures gib >= 1103 ==> forall k :: 0 <= k < 8 ==> sizes[DEFAULT[k].name] == DEFAULT[k].max
  {
    DefaultVolumes();
    forall k | 0 <= k < 8
      ensures DEFAULT[k].name in sizes
      ensures gib == 203 ==> sizes[DEFAULT[k].name] == DEFAULT[k].min
      ensures gib >= 1103 ==> sizes[DEFAULT[k].name] == DEFAULT[k].max
    {
      DefaultSize(gib, rest, sizes, k);
    }
    if gib >= 203 {
      DefaultSize(gib, rest, sizes, 0);
    } else {
      forall name | name in sizes ensures sizes[name] == 0 {
        DefaultSize(gib, rest, sizes, IndexOf(DEFAULT, name));
      }
    }
  }
}
