/** Sizing the Baseline volumes to the space a drive really has. */
module DriveSizing {
  import opened Basics
  import opened Arithmetic

  const SAFETY_MARGIN_BYTES: int := 1_073_741_824

  /** Whole GiB in a number of bytes. */
  function WholeGib(bytes: nat): nat { bytes / 1_073_741_824 }

  datatype VolumeSpec = Volume(name: string, min: nat, max: nat)
  type Volume = v: VolumeSpec | v.min <= v.max witness VolumeSpec.Volume("", 0, 0)

  // ----- a dictionary keyed by label, in insertion order ---------------------------------------------------------

  predicate Distinct(vs: seq<Volume>) {
    forall i, j :: 0 <= i < j < |vs| ==> vs[i].name != vs[j].name
  }

  function IndexOf(d: seq<Volume>, name: string): (i: nat)
    ensures i <= |d| && (i < |d| ==> d[i].name == name)
    ensures forall k :: 0 <= k < i ==> d[k].name != name
  {
    if d == [] || d[0].name == name then 0 else 1 + IndexOf(d[1..], name)
  }

  function Put(d: seq<Volume>, v: Volume): seq<Volume> {
    var i := IndexOf(d, v.name);
    if i < |d| then d[i := v] else d + [v]
  }

  /** Later volumes of the same label replace earlier ones. */
  function Dict(vs: seq<Volume>): seq<Volume> {
    if vs == [] then [] else Put(Dict(vs[..|vs| - 1]), vs[|vs| - 1])
  }

  // ----- sizes ---------------------------------------------------------------------------------------------------

  function TotalMin(d: seq<Volume>): nat {
    if d == [] then 0 else TotalMin(d[..|d| - 1]) + d[|d| - 1].min
  }

  function TotalRoom(d: seq<Volume>): nat {
    if d == [] then 0 else TotalRoom(d[..|d| - 1]) + (d[|d| - 1].max - d[|d| - 1].min)
  }

  function UsableGb(free: int): nat { WholeGib(Max(free - SAFETY_MARGIN_BYTES, 0)) }

  /** A volume's proportional share of `remaining`, by its own room to grow. */
  function Share(remaining: nat, totalRoom: nat, v: Volume): nat
    requires totalRoom > 0
  {
    MulMono(0, remaining, v.max - v.min);
    remaining * (v.max - v.min) / totalRoom
  }

  /** One volume's size: nothing unless every minimum fits, then its minimum and its share, up to its maximum. */
  function SizeIn(usable: nat, totalMin: nat, totalRoom: nat, v: Volume): nat {
    if usable < totalMin then 0
    else if totalRoom == 0 then v.min
    else Min(v.max, v.min + Share(usable - totalMin, totalRoom, v))
  }

  function SizeOf(free: int, d: seq<Volume>, v: Volume): nat {
    SizeIn(UsableGb(free), TotalMin(d), TotalRoom(d), v)
  }

  /** The total size of the first `k` volumes of a dictionary. */
  function TotalSize(free: int, d: seq<Volume>, k: nat): nat
    requires k <= |d|
  { if k == 0 then 0 else TotalSize(free, d, k - 1) + SizeOf(free, d, d[k - 1]) }

  method AsDict(volumes: seq<Volume>) returns (d: seq<Volume>)
    ensures d == Dict(volumes)
  {
    d := [];
    var k := 0;
    while k < |volumes|
      invariant 0 <= k <= |volumes| && d == Dict(volumes[..k])
    {
      assert volumes[..k + 1][..k] == volumes[..k];
      d := Put(d, volumes[k]);
      k := k + 1;
    }
    assert volumes[..|volumes|] == volumes;
  }

  method Size(usable: nat, totalMin: nat, totalRoom: nat, v: Volume) returns (size: nat)
    ensures size == SizeIn(usable, totalMin, totalRoom, v)
  {
    if usable < totalMin { return 0; }
    size := v.min;
    var remaining, room := usable - totalMin, v.max - v.min;
    if remaining == 0 || room == 0 {
      assert remaining * room == 0;
    } else if totalRoom > 0 {
      size := Min(v.max, size + remaining * room / totalRoom);
    }
  }

  /** A size for every name of the dictionary, and for no other. */
  predicate IsPlan(plan: map<string, nat>, free: int, d: seq<Volume>) {
    IsPlanFor(plan, UsableGb(free), TotalMin(d), TotalRoom(d), d)
  }

  predicate IsPlanFor(plan: map<string, nat>, usable: nat, totalMin: nat, totalRoom: nat, d: seq<Volume>) {
    && (forall i :: 0 <= i < |d| ==> d[i].name in plan && plan[d[i].name] == SizeIn(usable, totalMin, totalRoom, d[i]))
    && (forall name :: name in plan ==> IndexOf(d, name) < |d|)
  }

  method ComputeAdaptivePlan(free: int, volumes: seq<Volume>) returns (plan: map<string, nat>)
    ensures IsPlan(plan, free, Dict(volumes))
  {
    DictDistinct(volumes);
    var d := AsDict(volumes);
    plan := Sizes(UsableGb(free), TotalMin(d), TotalRoom(d), d);
  }

  method Sizes(usable: nat, totalMin: nat, totalRoom: nat, d: seq<Volume>) returns (plan: map<string, nat>)
    requires Distinct(d)
    ensures IsPlanFor(plan, usable, totalMin, totalRoom, d)
  {
    plan := map[];
    var k := 0;
    while k < |d|
      invariant 0 <= k <= |d|
      invariant forall i :: 0 <= i < k ==>
                  d[i].name in plan && plan[d[i].name] == SizeIn(usable, totalMin, totalRoom, d[i])
      invariant forall name :: name in plan ==> IndexOf(d, name) < |d|
    {
      var size := Size(usable, totalMin, totalRoom, d[k]);
      plan := plan[d[k].name := size];
      k := k + 1;
    }
  }

  lemma {:induction false} DictDistinct(vs: seq<Volume>)
    ensures Distinct(Dict(vs))
    ensures Distinct(vs) ==> Dict(vs) == vs
  {
    if vs != [] {
      var init, last := vs[..|vs| - 1], vs[|vs| - 1];
      DictDistinct(init);
      if Distinct(vs) {
        assert init + [last] == vs;
      }
    }
  }

  // ----- what the sizes guarantee --------------------------------------------------------------------------------

  /** Rounding down proportional shares loses less than one unit a volume: over the first `k` volumes, the shares
      handed out times the total room stay within `k` rooms of what the rooms are entitled to. */
  function Shares(remaining: nat, totalRoom: nat, d: seq<Volume>, k: nat): nat
    requires totalRoom > 0 && k <= |d|
  { if k == 0 then 0 else Shares(remaining, totalRoom, d, k - 1) + Share(remaining, totalRoom, d[k - 1]) }

  lemma {:induction false} SharesBound(remaining: nat, totalRoom: nat, d: seq<Volume>, k: nat)
    requires totalRoom > 0 && k <= |d|
    ensures Shares(remaining, totalRoom, d, k) * totalRoom <= remaining * TotalRoom(d[..k])
    ensures remaining * TotalRoom(d[..k]) <= Shares(remaining, totalRoom, d, k) * totalRoom + k * (totalRoom - 1)
  {
    if k > 0 {
      SharesBound(remaining, totalRoom, d, k - 1);
      assert d[..k][..k - 1] == d[..k - 1];
      ShareStep(Shares(remaining, totalRoom, d, k - 1), remaining, totalRoom, TotalRoom(d[..k - 1]),
                d[k - 1].max - d[k - 1].min, k - 1);
    }
  }

  lemma ShareStep(before: nat, remaining: nat, t: nat, rooms: nat, room: nat, k: nat)
    requires t > 0 && before * t <= remaining * rooms <= before * t + k * (t - 1)
    ensures var after := before + remaining * room / t;
            after * t <= remaining * (rooms + room) <= after * t + (k + 1) * (t - 1)
  {
    var entitled := remaining * room;
    var share := entitled / t;
    Euclid(entitled, t);
    assert (before + share) * t == before * t + share * t;
    assert remaining * (rooms + room) == remaining * rooms + entitled;
    assert (k + 1) * (t - 1) == k * (t - 1) + (t - 1);
  }

  /** Handing out at most the total room: nothing more than `remaining`, and less than one unit a volume held back. */
  lemma SharesFit(remaining: nat, d: seq<Volume>)
    requires TotalRoom(d) > 0
    ensures remaining - |d| < Shares(remaining, TotalRoom(d), d, |d|) <= remaining
  {
    SharesBound(remaining, TotalRoom(d), d, |d|);
    assert d[..|d|] == d && d != [];
    LessThanOneEach(remaining, Shares(remaining, TotalRoom(d), d, |d|), TotalRoom(d), |d|);
  }

  lemma LessThanOneEach(remaining: nat, s: nat, t: nat, n: nat)
    requires t > 0 && n > 0 && s * t <= remaining * t <= s * t + n * (t - 1)
    ensures remaining - n < s <= remaining
  {
    Cancel(s, remaining, t);
    assert (s + n) * t == s * t + n * t;
    assert n * t == n * (t - 1) + n;
    if remaining >= s + n { MulMono(s + n, remaining, t); }
  }

  lemma Cancel(a: nat, b: nat, t: nat)
    requires t > 0 && a * t <= b * t
    ensures a <= b
  {
    if b < a { MulMono(b + 1, a, t); }
  }

  /** A share stays within the volume's own room unless there is room for every maximum. */
  lemma ShareWithinRoom(remaining: nat, t: nat, v: Volume)
    requires 0 < t
    ensures remaining <= t ==> Share(remaining, t, v) <= v.max - v.min
    ensures remaining >= t ==> Share(remaining, t, v) >= v.max - v.min
  {
    var room := v.max - v.min;
    Euclid(remaining * room, t);
    var share := Share(remaining, t, v);
    if remaining <= t {
      MulMono(remaining, t, room);
      if share > room { MulMono(room + 1, share, t); }
    }
    if remaining >= t {
      MulMono(t, remaining, room);
      if share < room { MulMono(share + 1, room, t); }
    }
  }

  /** Either no volume gets anything, or every volume gets a size in its own range. */
  lemma SizesInRange(free: int, d: seq<Volume>)
    ensures if UsableGb(free) < TotalMin(d) then forall i :: 0 <= i < |d| ==> SizeOf(free, d, d[i]) == 0
            else forall i :: 0 <= i < |d| ==> d[i].min <= SizeOf(free, d, d[i]) <= d[i].max
  {
  }

  lemma {:induction false} TotalWithShares(free: int, d: seq<Volume>, k: nat)
    requires k <= |d| && UsableGb(free) >= TotalMin(d) && TotalRoom(d) > 0
    requires UsableGb(free) - TotalMin(d) <= TotalRoom(d)
    ensures TotalSize(free, d, k) == TotalMin(d[..k]) + Shares(UsableGb(free) - TotalMin(d), TotalRoom(d), d, k)
  {
    if k > 0 {
      TotalWithShares(free, d, k - 1);
      assert d[..k][..k - 1] == d[..k - 1];
      ShareWithinRoom(UsableGb(free) - TotalMin(d), TotalRoom(d), d[k - 1]);
    }
  }

  lemma {:induction false} TotalAtMax(free: int, d: seq<Volume>, k: nat)
    requires k <= |d| && forall i :: 0 <= i < |d| ==> SizeOf(free, d, d[i]) == d[i].max
    ensures TotalSize(free, d, k) == TotalMin(d[..k]) + TotalRoom(d[..k])
  {
    if k > 0 {
      TotalAtMax(free, d, k - 1);
      assert d[..k][..k - 1] == d[..k - 1];
    }
  }

  lemma {:induction false} NoRoomAtMax(d: seq<Volume>, i: nat)
    requires i < |d| && TotalRoom(d) == 0
    ensures d[i].min == d[i].max
  {
    if i < |d| - 1 { NoRoomAtMax(d[..|d| - 1], i); }
  }

  /** The plan never promises more than is usable; and when it gives anything it is as generous as whole units allow:
      every volume is at its maximum, or less than one unit a volume is left over. So a proportional share never hits
      a cap while another volume goes short. */
  lemma SizesAreTight(free: int, d: seq<Volume>)
    requires UsableGb(free) >= TotalMin(d)
    ensures TotalSize(free, d, |d|) <= UsableGb(free)
    ensures || (forall i :: 0 <= i < |d| ==> SizeOf(free, d, d[i]) == d[i].max)
            || UsableGb(free) - TotalSize(free, d, |d|) < |d|
  {
    assert d[..|d|] == d;
    if TotalRoom(d) == 0 || UsableGb(free) - TotalMin(d) >= TotalRoom(d) {
      AllAtMax(free, d);
      TotalAtMax(free, d, |d|);
    } else {
      TotalWithShares(free, d, |d|);
      SharesFit(UsableGb(free) - TotalMin(d), d);
    }
  }

  lemma AllAtMax(free: int, d: seq<Volume>)
    requires UsableGb(free) >= TotalMin(d)
    requires TotalRoom(d) == 0 || UsableGb(free) - TotalMin(d) >= TotalRoom(d)
    ensures forall i :: 0 <= i < |d| ==> SizeOf(free, d, d[i]) == d[i].max
  {
    forall i | 0 <= i < |d| ensures SizeOf(free, d, d[i]) == d[i].max {
      if TotalRoom(d) == 0 { NoRoomAtMax(d, i); }
      else { ShareWithinRoom(UsableGb(free) - TotalMin(d), TotalRoom(d), d[i]); }
    }
  }

  /** More free space never shrinks a volume. */
  lemma SizesAreMonotone(free: int, free': int, d: seq<Volume>, v: Volume)
    requires free <= free'
    ensures SizeOf(free, d, v) <= SizeOf(free', d, v)
  {
    DivMono(Max(free - SAFETY_MARGIN_BYTES, 0), Max(free' - SAFETY_MARGIN_BYTES, 0), 1_073_741_824);
    var t := TotalRoom(d);
    if UsableGb(free) >= TotalMin(d) && t > 0 {
      var room := v.max - v.min;
      MulMono(UsableGb(free) - TotalMin(d), UsableGb(free') - TotalMin(d), room);
      DivMono((UsableGb(free) - TotalMin(d)) * room, (UsableGb(free') - TotalMin(d)) * room, t);
    }
  }
}
