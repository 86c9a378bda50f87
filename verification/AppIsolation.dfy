/** The isolation checks over a whole set of application plans. */
module AppIsolation {
  import opened Basics
  import opened Overlays

  datatype Overlay = Overlay(target: string, upper: string, work: string)
  datatype Plan = Plan(app: string, id: string, home: string, overlays: seq<Overlay>, binds: seq<string>)

  // ----- one application's plan ----------------------------------------------------------------------------------

  function OverlayOf(home: string, target: string): Overlay {
    Overlay(target, home + "/upper/" + Escape(target), home + "/work/" + Escape(target))
  }

  /** The plan of an application with an identifier, under one persona's AppData root: overlays for its validated
      targets, binds for the paths of a container. */
  function PlanFor(root: string, app: string, id: string, targets: seq<string>, bound: seq<string>): Plan {
    var home := root + "/" + id;
    Plan(app, id, home, seq(|targets|, i requires 0 <= i < |targets| => OverlayOf(home, targets[i])),
         seq(|bound|, i requires 0 <= i < |bound| => home + "/binds/" + Escape(bound[i])))
  }

  /** The layers of an application lie in its own tree, an upper layer is never a work directory, and two overlays share
      one only if they have the same target. */
  lemma LayersApart(root: string, app: string, id: string, targets: seq<string>, bound: seq<string>, i: nat, j: nat)
    requires i < |targets| && j < |targets|
    ensures var p := PlanFor(root, app, id, targets, bound);
            && p.home == root + "/" + id
            && p.home + "/" <= p.overlays[i].upper && p.home + "/" <= p.overlays[i].work
            && p.overlays[i].upper != p.overlays[j].work
            && (p.overlays[i].upper == p.overlays[j].upper ==> targets[i] == targets[j])
            && (p.overlays[i].work == p.overlays[j].work ==> targets[i] == targets[j])
            && p.overlays[i].target == targets[i]
  {
    var home := root + "/" + id;
    LayerNames(home, Escape(targets[i]), Escape(targets[j]));
    if Escape(targets[i]) == Escape(targets[j]) { EscapeInjective(targets[i], targets[j]); }
  }

  lemma LayerNames(home: string, a: string, b: string)
    ensures home + "/" <= home + "/upper/" + a && home + "/" <= home + "/work/" + a
    ensures home + "/upper/" + a != home + "/work/" + b
    ensures home + "/upper/" + a == home + "/upper/" + b ==> a == b
    ensures home + "/work/" + a == home + "/work/" + b ==> a == b
  {
    assert home + "/upper/" + a == home + "/" + ("upper/" + a) && home + "/work/" + a == home + "/" + ("work/" + a);
    assert (home + "/upper/" + a)[|home| + 1] == 'u' && (home + "/work/" + b)[|home| + 1] == 'w';
    assert (home + "/upper/" + a)[|home| + 7..] == a && (home + "/upper/" + b)[|home| + 7..] == b;
    assert (home + "/work/" + a)[|home| + 6..] == a && (home + "/work/" + b)[|home| + 6..] == b;
  }

  // ----- target conflicts ----------------------------------------------------------------------------------------

  // One overlay of one application, at its normalized target.
  datatype Mount = Mount(app: string, target: string)

  function PlanMounts(app: string, overlays: seq<Overlay>): seq<Mount> {
    if overlays == [] then []
    else PlanMounts(app, overlays[..|overlays| - 1]) + [Mount(app, NormPath(overlays[|overlays| - 1].target))]
  }

  function Mounts(plans: seq<Plan>): seq<Mount> {
    if plans == [] then []
    else Mounts(plans[..|plans| - 1]) + PlanMounts(plans[|plans| - 1].app, plans[|plans| - 1].overlays)
  }

  /** Who mounts at a target, once for every time. */
  function AppsAt(mounts: seq<Mount>, target: string): seq<string> {
    if mounts == [] then []
    else
      var last := mounts[|mounts| - 1];
      AppsAt(mounts[..|mounts| - 1], target) + if last.target == target then [last.app] else []
  }

  /** The dictionary from targets to the applications mounting there. */
  ghost predicate Groups(seen: map<string, seq<string>>, mounts: seq<Mount>) {
    forall t :: GroupedAt(seen, mounts, t)
  }

  predicate GroupedAt(seen: map<string, seq<string>>, mounts: seq<Mount>, t: string) {
    (if t in seen then seen[t] else []) == AppsAt(mounts, t) && (t in seen ==> seen[t] != [])
  }

  method Collect(plans: seq<Plan>) returns (seen: map<string, seq<string>>, ghost mounts: seq<Mount>)
    ensures mounts == Mounts(plans) && Groups(seen, mounts)
  {
    seen, mounts := map[], [];
    for k := 0 to |plans|
      invariant mounts == Mounts(plans[..k]) && Groups(seen, mounts)
    {
      ghost var before := mounts;
      for j := 0 to |plans[k].overlays|
        invariant mounts == before + PlanMounts(plans[k].app, plans[k].overlays[..j]) && Groups(seen, mounts)
      {
        var target := NormalizePath(plans[k].overlays[j].target);
        PlanMountsStep(plans[k], before, j);
        GroupsStep(seen, mounts, Mount(plans[k].app, target));
        mounts := mounts + [Mount(plans[k].app, target)];
        seen := seen[target := (if target in seen then seen[target] else []) + [plans[k].app]];
      }
      assert plans[k].overlays[..|plans[k].overlays|] == plans[k].overlays;
      assert plans[..k + 1][..k] == plans[..k];
    }
    assert plans[..|plans|] == plans;
  }

  lemma GroupsMeans(seen: map<string, seq<string>>, mounts: seq<Mount>)
    requires Groups(seen, mounts)
    ensures forall t :: t in seen <==> AppsAt(mounts, t) != []
    ensures forall t :: t in seen ==> seen[t] == AppsAt(mounts, t) && seen[t] != []
  {
    forall t ensures t in seen <==> AppsAt(mounts, t) != [] { assert GroupedAt(seen, mounts, t); }
    forall t | t in seen ensures seen[t] == AppsAt(mounts, t) && seen[t] != [] { assert GroupedAt(seen, mounts, t); }
  }

  lemma PlanMountsStep(p: Plan, before: seq<Mount>, j: nat)
    requires j < |p.overlays|
    ensures before + PlanMounts(p.app, p.overlays[..j]) + [Mount(p.app, NormPath(p.overlays[j].target))]
            == before + PlanMounts(p.app, p.overlays[..j + 1])
  {
    assert p.overlays[..j + 1][..j] == p.overlays[..j];
  }

  lemma GroupsStep(seen: map<string, seq<string>>, mounts: seq<Mount>, m: Mount)
    requires Groups(seen, mounts)
    ensures Groups(seen[m.target := (if m.target in seen then seen[m.target] else []) + [m.app]], mounts + [m])
  {
    var seen' := seen[m.target := (if m.target in seen then seen[m.target] else []) + [m.app]];
    forall t ensures GroupedAt(seen', mounts + [m], t) {
      assert (mounts + [m])[..|mounts|] == mounts;
      assert GroupedAt(seen, mounts, t);
      assert AppsAt(mounts, t) + [] == AppsAt(mounts, t);
    }
  }

  lemma {:induction false} AppsAtIndex(mounts: seq<Mount>, target: string)
    ensures AppsAt(mounts, target) != [] <==> exists i :: 0 <= i < |mounts| && mounts[i].target == target
    ensures |AppsAt(mounts, target)| > 1
            <==> exists i, j :: 0 <= i < j < |mounts| && mounts[i].target == target && mounts[j].target == target
  {
    if mounts != [] {
      var n := |mounts| - 1;
      AppsAtIndex(mounts[..n], target);
      assert forall i :: 0 <= i < n ==> mounts[..n][i] == mounts[i];
    }
  }

  /** A target at or under which there is more than one mount. */
  predicate Crowded(seen: map<string, seq<string>>, t: string)
    requires t in seen
  { |seen[t]| > 1 || exists child :: child in seen && Below(t, child) }

  method ListKeys(m: map<string, seq<string>>) returns (keys: seq<string>)
    ensures forall k :: k in keys <==> k in m
  {
    var left := m.Keys;
    keys := [];
    while left != {}
      invariant left <= m.Keys && forall k :: k in keys <==> k in m.Keys - left
    {
      var k :| k in left;
      keys, left := keys + [k], left - {k};
    }
  }

  /** The owners of a target and of everything inside it. */
  method OwnersWithin(seen: map<string, seq<string>>, keys: seq<string>, target: string) returns (owners: seq<string>)
    requires target in seen && (forall k :: k in keys <==> k in seen) && forall t :: t in seen ==> seen[t] != []
    ensures |owners| > 1 <==> Crowded(seen, target)
    ensures forall app :: app in owners <==>
              app in seen[target] || exists child :: child in seen && Below(target, child) && app in seen[child]
  {
    owners := seen[target];
    for k := 0 to |keys|
      invariant |owners| > 1 <==> |seen[target]| > 1 || exists i :: 0 <= i < k && Below(target, keys[i])
      invariant |owners| >= 1
      invariant forall app :: app in owners <==>
                  app in seen[target] || exists i :: 0 <= i < k && Below(target, keys[i]) && app in seen[keys[i]]
    {
      assert keys[k] in keys;
      if Below(target, keys[k]) { owners := owners + seen[keys[k]]; }
    }
    assert forall child :: child in seen ==> child in keys;
  }

  /** There is a mount at `t`, and a second one there or one inside. */
  predicate Contended(mounts: seq<Mount>, t: string) {
    && (exists i :: 0 <= i < |mounts| && mounts[i].target == t)
    && ((exists i, j :: 0 <= i < j < |mounts| && mounts[i].target == t && mounts[j].target == t)
        || exists j :: 0 <= j < |mounts| && Below(t, mounts[j].target))
  }

  /** The applications with a mount at `t` or inside. */
  function Within(mounts: seq<Mount>, t: string): set<string> {
    set i | 0 <= i < |mounts| && (mounts[i].target == t || Below(t, mounts[i].target)) :: mounts[i].app
  }

  lemma {:induction false} AppsAtApps(mounts: seq<Mount>, target: string, app: string)
    ensures app in AppsAt(mounts, target)
            <==> exists i :: 0 <= i < |mounts| && mounts[i].target == target && mounts[i].app == app
  {
    if mounts != [] {
      var n := |mounts| - 1;
      AppsAtApps(mounts[..n], target, app);
      assert forall i :: 0 <= i < n ==> mounts[..n][i] == mounts[i];
    }
  }

  lemma ContendedExactly(seen: map<string, seq<string>>, mounts: seq<Mount>, t: string)
    requires Groups(seen, mounts)
    ensures Contended(mounts, t) <==> t in seen && Crowded(seen, t)
  {
    GroupsMeans(seen, mounts);
    forall s ensures s in seen <==> exists i :: 0 <= i < |mounts| && mounts[i].target == s { AppsAtIndex(mounts, s); }
    AppsAtIndex(mounts, t);
    forall j | 0 <= j < |mounts| ensures mounts[j].target in seen { }
  }

  lemma OwnersAreWithin(seen: map<string, seq<string>>, mounts: seq<Mount>, t: string, app: string)
    requires Groups(seen, mounts) && t in seen
    ensures app in Within(mounts, t)
            <==> app in seen[t] || exists child :: child in seen && Below(t, child) && app in seen[child]
  {
    GroupsMeans(seen, mounts);
    AppsAtApps(mounts, t, app);
    if i :| 0 <= i < |mounts| && Below(t, mounts[i].target) && mounts[i].app == app {
      AppsAtApps(mounts, mounts[i].target, app);
      assert mounts[i].target in seen;
    }
    if child :| child in seen && Below(t, child) && app in seen[child] { AppsAtApps(mounts, child, app); }
  }

  /** Every contended target with the applications that meet there. */
  method TargetConflicts(plans: seq<Plan>) returns (conflicts: map<string, set<string>>)
    ensures forall t :: t in conflicts <==> Contended(Mounts(plans), t)
    ensures forall t :: t in conflicts ==> conflicts[t] == Within(Mounts(plans), t)
  {
    var seen; ghost var mounts;
    seen, mounts := Collect(plans);
    var keys := ListKeys(seen);
    GroupsMeans(seen, mounts);
    conflicts := map[];
    for k := 0 to |keys|
      invariant forall t :: t in conflicts <==> t in keys[..k] && Contended(mounts, t)
      invariant forall t :: t in conflicts ==> conflicts[t] == Within(mounts, t)
    {
      assert keys[k] in keys && keys[..k + 1] == keys[..k] + [keys[k]];
      var owners := OwnersWithin(seen, keys, keys[k]);
      ContendedExactly(seen, mounts, keys[k]);
      if |owners| > 1 {
        forall app ensures app in owners <==> app in Within(mounts, keys[k]) {
          OwnersAreWithin(seen, mounts, keys[k], app);
        }
        conflicts := conflicts[keys[k] := set app | app in owners];
      }
    }
    forall t | Contended(mounts, t) ensures t in keys[..|keys|] {
      ContendedExactly(seen, mounts, t);
      assert keys[..|keys|] == keys;
    }
  }

  /** No two mounts share a target, none is inside another, and none is at a root, which counts as inside itself. */
  predicate Apart(mounts: seq<Mount>) {
    && (forall i, j :: 0 <= i < j < |mounts| ==> mounts[i].target != mounts[j].target)
    && (forall i, j :: 0 <= i < |mounts| && 0 <= j < |mounts| ==> !Below(mounts[i].target, mounts[j].target))
  }

  /** The check finds nothing exactly when all mounts are apart. */
  lemma NoConflictExactly(mounts: seq<Mount>)
    ensures (forall t :: !Contended(mounts, t)) <==> Apart(mounts)
  {
    if forall t :: !Contended(mounts, t) {
      forall i, j | 0 <= i < |mounts| && 0 <= j < |mounts| ensures !Below(mounts[i].target, mounts[j].target) {
        assert !Contended(mounts, mounts[i].target);
      }
      forall i, j | 0 <= i < j < |mounts| ensures mounts[i].target != mounts[j].target {
        assert !Contended(mounts, mounts[i].target);
      }
    }
  }

  /** Nothing in normal form but a root is inside itself. */
  lemma OnlyRootsAreWithinThemselves(target: string)
    requires Validate(target).Some?
    ensures !Below(Validate(target).value, Validate(target).value)
  {
    var t := Validate(target).value;
    EndsWithoutSlash(target);
  }

  /** A mount at the root meets itself, even alone. */
  lemma RootMeetsItself(app: string)
    ensures Contended([Mount(app, "/")], "/")
  {
    var mounts := [Mount(app, "/")];
    assert "/"[..0] == "";
    assert RStripSlash("/") == "";
    assert mounts[0].target == "/" && Below("/", mounts[0].target);
  }

  ghost predicate IsValidated(target: string) { exists raw :: Validate(raw) == Some(target) }

  /** A plan as it is made from targets that passed the validation. */
  ghost predicate Validated(p: Plan) { forall i :: 0 <= i < |p.overlays| ==> IsValidated(p.overlays[i].target) }

  lemma {:induction false} PlanMountsValidated(app: string, overlays: seq<Overlay>, i: nat)
    requires (forall k :: 0 <= k < |overlays| ==> IsValidated(overlays[k].target)) && i < |PlanMounts(app, overlays)|
    ensures IsValidated(PlanMounts(app, overlays)[i].target)
  {
    var n := |overlays| - 1;
    if i < |PlanMounts(app, overlays[..n])| {
      PlanMountsValidated(app, overlays[..n], i);
    } else {
      assert IsValidated(overlays[n].target);
      var raw :| Validate(raw) == Some(overlays[n].target);
      NormPathIdempotent(raw);
    }
  }

  lemma {:induction false} MountsValidated(plans: seq<Plan>, i: nat)
    requires (forall k :: 0 <= k < |plans| ==> Validated(plans[k])) && i < |Mounts(plans)|
    ensures IsValidated(Mounts(plans)[i].target)
  {
    var n := |plans| - 1;
    if i < |Mounts(plans[..n])| {
      MountsValidated(plans[..n], i);
    } else {
      assert Validated(plans[n]);
      PlanMountsValidated(plans[n].app, plans[n].overlays, i - |Mounts(plans[..n])|);
    }
  }

  /** Validated plans hold no root, so what is reported about them is a meeting of two mounts: nothing is, if and only
      if no two of them share a target or lie one inside the other. */
  lemma ValidatedConflictExactly(plans: seq<Plan>)
    requires forall k :: 0 <= k < |plans| ==> Validated(plans[k])
    ensures var m := Mounts(plans);
            (forall t :: !Contended(m, t)) <==>
              forall i, j :: 0 <= i < |m| && 0 <= j < |m| && i != j ==>
                m[i].target != m[j].target && !Below(m[i].target, m[j].target)
  {
    var m := Mounts(plans);
    forall i | 0 <= i < |m| ensures !Below(m[i].target, m[i].target) {
      MountsValidated(plans, i);
      var raw :| Validate(raw) == Some(m[i].target);
      OnlyRootsAreWithinThemselves(raw);
    }
    NoConflictExactly(m);
  }

  // ----- leaks ---------------------------------------------------------------------------------------------------

  datatype Leak = Leak(app: string, other: string, dir: string)

  /** An application's writable directories. */
  function Writable(p: Plan): seq<string> {
    seq(|p.overlays|, i requires 0 <= i < |p.overlays| => p.overlays[i].upper) + p.binds
  }

  predicate LeaksInto(p: Plan, q: Plan) {
    p.app != q.app && exists i :: 0 <= i < |Writable(p)| && q.home + "/" <= Writable(p)[i]
  }

  /** One of `p`'s layers, under the name of both applications, that lies in `q`'s tree. */
  predicate IsLeak(p: Plan, q: Plan, l: Leak) {
    p.app != q.app && l.app == p.app && l.other == q.app && l.dir in Writable(p) && q.home + "/" <= l.dir
  }

  method LeaksOf(p: Plan, q: Plan) returns (leaks: seq<Leak>)
    requires p.app != q.app
    ensures leaks == [] <==> !LeaksInto(p, q)
    ensures forall l :: l in leaks <==> IsLeak(p, q, l)
  {
    leaks := [];
    var dirs := Writable(p);
    for k := 0 to |dirs|
      invariant leaks == [] <==> forall i :: 0 <= i < k ==> !(q.home + "/" <= dirs[i])
      invariant forall l :: l in leaks <==>
                  l.app == p.app && l.other == q.app && l.dir in dirs[..k] && q.home + "/" <= l.dir
    {
      assert dirs[..k + 1] == dirs[..k] + [dirs[k]];
      if q.home + "/" <= dirs[k] { leaks := leaks + [Leak(p.app, q.app, dirs[k])]; }
    }
    assert dirs[..|dirs|] == dirs;
  }

  method CrossAppLeaks(plans: seq<Plan>) returns (leaks: seq<Leak>)
    ensures leaks == [] <==> forall i, j :: 0 <= i < |plans| && 0 <= j < |plans| ==> !LeaksInto(plans[i], plans[j])
    // and it lists every leak, and nothing else
    ensures forall l :: l in leaks <==>
              exists i, j :: 0 <= i < |plans| && 0 <= j < |plans| && IsLeak(plans[i], plans[j], l)
  {
    leaks := [];
    for i := 0 to |plans|
      invariant leaks == [] <==> forall a, b :: 0 <= a < i && 0 <= b < |plans| ==> !LeaksInto(plans[a], plans[b])
      invariant forall l :: l in leaks <==>
                  exists a, b :: 0 <= a < i && 0 <= b < |plans| && IsLeak(plans[a], plans[b], l)
    {
      for j := 0 to |plans|
        invariant leaks == [] <==>
                    && (forall a, b :: 0 <= a < i && 0 <= b < |plans| ==> !LeaksInto(plans[a], plans[b]))
                    && (forall b :: 0 <= b < j ==> !LeaksInto(plans[i], plans[b]))
        invariant forall l :: l in leaks <==>
                    || (exists a, b :: 0 <= a < i && 0 <= b < |plans| && IsLeak(plans[a], plans[b], l))
                    || (exists b :: 0 <= b < j && IsLeak(plans[i], plans[b], l))
      {
        if plans[i].app != plans[j].app {
          var found := LeaksOf(plans[i], plans[j]);
          leaks := leaks + found;
        }
      }
    }
  }

  lemma OnlyOwnTree(root: string, a: string, b: string, rest: string)
    requires '/' !in a && '/' !in b
    ensures root + "/" + b + "/" <= root + "/" + a + ("/" + rest) <==> a == b
  {
    var p := root + "/";
    assert root + "/" + b + "/" == p + (b + "/");
    assert root + "/" + a + ("/" + rest) == p + (a + ("/" + rest));
    SamePrefix(p, b + "/", a + ("/" + rest));
    if b + "/" <= a + ("/" + rest) {
      assert b + "/" + "" == b + "/";
      HeadDecides(b, a, "", "/" + rest);
    }
    if a == b { assert a + ("/" + rest) == (b + "/") + rest; }
  }

  lemma DirLeaksExactly(root: string, p: Plan, id: string, targets: seq<string>, bound: seq<string>, i: nat)
    requires p == PlanFor(root, p.app, p.id, targets, bound) && '/' !in p.id && '/' !in id && i < |Writable(p)|
    ensures root + "/" + id + "/" <= Writable(p)[i] <==> p.id == id
  {
    if i < |targets| {
      OnlyOwnTree(root, p.id, id, "upper/" + Escape(targets[i]));
      assert Writable(p)[i] == p.home + "/upper/" + Escape(targets[i]);
      assert Writable(p)[i] == p.home + ("/" + ("upper/" + Escape(targets[i])));
    } else {
      var b := bound[i - |targets|];
      OnlyOwnTree(root, p.id, id, "binds/" + Escape(b));
      assert Writable(p)[i] == p.home + "/binds/" + Escape(b) == p.home + ("/" + ("binds/" + Escape(b)));
    }
  }

  /** Under one root, an application's writable layers fall inside another's tree exactly when the two were given the
      same identifier and there is a layer at all. */
  lemma LeaksExactly(root: string, p: Plan, q: Plan, targets: seq<string>, bound: seq<string>, targets': seq<string>,
                     bound': seq<string>)
    requires p == PlanFor(root, p.app, p.id, targets, bound) && q == PlanFor(root, q.app, q.id, targets', bound')
    requires '/' !in p.id && '/' !in q.id
    ensures LeaksInto(p, q) <==> p.app != q.app && p.id == q.id && targets + bound != []
  {
    forall i | 0 <= i < |Writable(p)| ensures q.home + "/" <= Writable(p)[i] <==> p.id == q.id {
      DirLeaksExactly(root, p, q.id, targets, bound, i);
    }
    assert |Writable(p)| == |targets + bound|;
    if targets + bound != [] { assert q.home + "/" <= Writable(p)[0] <==> p.id == q.id; }
  }
}
