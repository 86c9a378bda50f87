/** A fleet of disks whose identities are minted, adopted, forked and named, and which may be copied whole. */
module FleetLineage {
  import opened Basics
  import opened InstallIdentity

  type DiskName = nat

  // What became of every id ever minted, though no single disk knows it.
  datatype Birth = Birth(parent: Option<Id>, generation: int)
  datatype Fleet = Fleet(disks: map<DiskName, Disk>, births: map<Id, Birth>)

  datatype Op = Ensure(disk: DiskName, now: int, fp: Fingerprint, parent: Option<Id>, parentGeneration: int, newId: Id)
              | Adopt(disk: DiskName, now: int, fp: Fingerprint)
              | Fork(disk: DiskName, now: int, fp: Fingerprint, newId: Id)
              | Alias(disk: DiskName, now: int, alias: string, valid: bool)
              | Copy(disk: DiskName, from: DiskName)

  function On(f: Fleet, disk: DiskName): Disk { if disk in f.disks then f.disks[disk] else FRESH }

  /** The disk an operation is run on, afterwards. */
  function After(f: Fleet, op: Op): Disk {
    var d := On(f, op.disk);
    match op
    case Ensure(_, now, fp, parent, parentGeneration, newId) => Ensured(d, now, fp, parent, parentGeneration, newId)
    case Adopt(_, now, fp) => Adopted(d, now, fp)
    case Fork(_, now, fp, newId) => Forked(d, now, fp, newId)
    case Alias(_, now, alias, valid) => Aliased(d, now, alias, valid)
    case Copy(_, from) => On(f, from)
  }

  predicate Mints(f: Fleet, op: Op) {
    (op.Ensure? && On(f, op.disk).stored.None?) || (op.Fork? && On(f, op.disk).stored.Some?)
  }

  function Perform(f: Fleet, op: Op): Fleet {
    var d := After(f, op);
    Fleet(f.disks[op.disk := d],
          if Mints(f, op) && d.stored.Some?
          then f.births[d.stored.value.id := Birth(d.stored.value.parent, d.stored.value.generation)] else f.births)
  }

  /** New ids are new, and a replication manifest says the truth about the parent. */
  predicate Honest(f: Fleet, op: Op) {
    && (Mints(f, op) && (op.Ensure? || op.Fork?) ==> op.newId !in f.births)
    && (Mints(f, op) && op.Ensure? && op.parent.Some? ==>
          op.parent.value in f.births && op.parentGeneration == f.births[op.parent.value].generation)
  }

  function Run(f: Fleet, ops: seq<Op>): (r: seq<Fleet>)
    ensures |r| == |ops| + 1 && r[0] == f
    decreases ops
  { [f] + if ops == [] then [] else Run(Perform(f, ops[0]), ops[1..]) }

  predicate AllHonest(f: Fleet, ops: seq<Op>)
    decreases ops
  { ops == [] || (Honest(f, ops[0]) && AllHonest(Perform(f, ops[0]), ops[1..])) }

  // ----- the invariant -------------------------------------------------------------------------------------------

  predicate WellBorn(births: map<Id, Birth>, b: Birth) {
    if b.parent.None? then b.generation == 0
    else b.generation > 0 && b.parent.value in births && b.generation == births[b.parent.value].generation + 1
  }

  /** A disk's identity was minted as it says, and its history ends with it. */
  predicate Faithful(births: map<Id, Birth>, d: Disk) {
    && (d.stored.None? <==> d.history == [])
    && (d.stored.Some? ==>
          && d.stored.value.id in births
          && births[d.stored.value.id] == Birth(d.stored.value.parent, d.stored.value.generation)
          && d.history[|d.history| - 1].identity == d.stored.value)
  }

  predicate Inv(f: Fleet) {
    && (forall id :: id in f.births ==> WellBorn(f.births, f.births[id]))
    && (forall disk :: disk in f.disks ==> Faithful(f.births, f.disks[disk]))
  }

  lemma FreshFaithful(births: map<Id, Birth>)
    ensures Faithful(births, FRESH)
  {
  }

  lemma BirthsGrow(f: Fleet, op: Op)
    requires Honest(f, op)
    ensures forall id :: id in f.births ==> id in Perform(f, op).births && Perform(f, op).births[id] == f.births[id]
  {
  }

  lemma AfterFaithful(f: Fleet, op: Op)
    requires Inv(f) && Honest(f, op)
    ensures Faithful(Perform(f, op).births, After(f, op))
    ensures Mints(f, op) ==> After(f, op).stored.Some? && var i := After(f, op).stored.value;
                             i.id == op.newId && WellBorn(f.births, Birth(i.parent, i.generation))
  {
    FreshFaithful(f.births);
    assert Faithful(f.births, On(f, op.disk));
    if op.Copy? { assert Faithful(f.births, On(f, op.from)); }
  }

  /** Every honest step keeps the lineage truthful. */
  lemma PerformKeeps(f: Fleet, op: Op)
    requires Inv(f) && Honest(f, op)
    ensures Inv(Perform(f, op))
  {
    var g := Perform(f, op);
    BirthsGrow(f, op);
    AfterFaithful(f, op);
    forall id | id in g.births ensures WellBorn(g.births, g.births[id]) {
      if id in f.births { assert WellBorn(f.births, f.births[id]); }
    }
    forall disk | disk in g.disks ensures Faithful(g.births, g.disks[disk]) {
      if disk != op.disk { assert Faithful(f.births, f.disks[disk]); }
    }
  }

  lemma {:induction false} RunKeeps(f: Fleet, ops: seq<Op>, i: nat)
    requires Inv(f) && AllHonest(f, ops) && i <= |ops|
    ensures Inv(Run(f, ops)[i])
    ensures i < |ops| ==> Honest(Run(f, ops)[i], ops[i]) && Run(f, ops)[i + 1] == Perform(Run(f, ops)[i], ops[i])
    decreases ops
  {
    if i > 0 {
      PerformKeeps(f, ops[0]);
      RunKeeps(Perform(f, ops[0]), ops[1..], i - 1);
    }
  }

  // ----- lineage -------------------------------------------------------------------------------------------------

  /** Following parents `k` times. */
  function Ancestor(births: map<Id, Birth>, id: Id, k: nat): Option<Id>
    decreases k
  {
    if id !in births then None
    else if k == 0 then Some(id)
    else if births[id].parent.None? then None
    else Ancestor(births, births[id].parent.value, k - 1)
  }

  /** Each step up the lineage is one generation back, so it has exactly as many steps as the generation says. */
  lemma {:induction false} AncestorGeneration(f: Fleet, id: Id, k: nat)
    requires Inv(f) && id in f.births
    ensures Ancestor(f.births, id, k).Some? <==> k <= f.births[id].generation
    ensures var up := Ancestor(f.births, id, k);
            up.Some? ==> up.value in f.births && f.births[up.value].generation == f.births[id].generation - k
    decreases k
  {
    assert WellBorn(f.births, f.births[id]);
    if k > 0 && f.births[id].parent.Some? { AncestorGeneration(f, f.births[id].parent.value, k - 1); }
  }

  /** No install descends from itself, and following the parents of any install ends, after as many steps as its
      generation, at an origin. */
  lemma LineageIsATree(f: Fleet, id: Id, k: nat)
    requires Inv(f) && id in f.births && k > 0
    ensures Ancestor(f.births, id, k) != Some(id)
    ensures f.births[id].generation >= 0
    ensures var origin := Ancestor(f.births, id, f.births[id].generation);
            origin.Some? && origin.value in f.births && f.births[origin.value].parent.None?
  {
    assert WellBorn(f.births, f.births[id]);
    AncestorGeneration(f, id, k);
    AncestorGeneration(f, id, f.births[id].generation);
    var origin := Ancestor(f.births, id, f.births[id].generation).value;
    assert WellBorn(f.births, f.births[origin]);
  }

  // ----- ids -----------------------------------------------------------------------------------------------------

  predicate Holds(f: Fleet, disk: DiskName, id: Id) { On(f, disk).stored.Some? && On(f, disk).stored.value.id == id }

  /** A fork of this disk, or its being overwritten by a copy of another one. */
  predicate Replaces(op: Op, disk: DiskName) { op.disk == disk && (op.Fork? || (op.Copy? && op.from != disk)) }

  /** Over every run a disk keeps its id until it is forked or overwritten: everything else, on any disk, leaves it. */
  lemma {:induction false} IdChangesOnlyByFork(f: Fleet, ops: seq<Op>, i: nat, disk: DiskName, id: Id)
    requires Holds(f, disk, id) && i <= |ops| && forall j :: 0 <= j < i ==> !Replaces(ops[j], disk)
    ensures Holds(Run(f, ops)[i], disk, id)
    decreases ops
  {
    if i > 0 {
      assert !Replaces(ops[0], disk);
      forall j | 0 <= j < i - 1 ensures !Replaces(ops[1..][j], disk) { assert !Replaces(ops[j + 1], disk); }
      IdChangesOnlyByFork(Perform(f, ops[0]), ops[1..], i - 1, disk, id);
    }
  }

  /** A fork gives the disk an id that no other disk has, and the copied id as its parent. */
  lemma ForkSeparates(f: Fleet, op: Op, other: DiskName)
    requires Inv(f) && Honest(f, op) && op.Fork? && On(f, op.disk).stored.Some? && other != op.disk
    ensures Holds(Perform(f, op), op.disk, op.newId) && !Holds(Perform(f, op), other, op.newId)
    ensures Perform(f, op).births[op.newId].parent == Some(On(f, op.disk).stored.value.id)
  {
    if other in f.disks { assert Faithful(f.births, f.disks[other]); }
  }

  /** `target` got `id` from a copy of another disk that had it, and has had it ever since. */
  ghost predicate GotByCopy(states: seq<Fleet>, ops: seq<Op>, i: nat, target: DiskName, id: Id)
    requires i < |states| == |ops| + 1
  {
    exists j | 0 <= j < i ::
      && ops[j].Copy? && ops[j].disk == target && ops[j].from != target && Holds(states[j], ops[j].from, id)
      && forall m :: j < m <= i ==> Holds(states[m], target, id)
  }

  lemma StillByCopy(states: seq<Fleet>, ops: seq<Op>, i: nat, target: DiskName, id: Id)
    requires i + 1 < |states| == |ops| + 1 && GotByCopy(states, ops, i, target, id) && Holds(states[i + 1], target, id)
    ensures GotByCopy(states, ops, i + 1, target, id)
  {
    var j :| && 0 <= j < i && ops[j].Copy? && ops[j].disk == target && ops[j].from != target
             && Holds(states[j], ops[j].from, id) && forall m :: j < m <= i ==> Holds(states[m], target, id);
    assert forall m :: j < m <= i + 1 ==> Holds(states[m], target, id);
  }

  /** What one step can do towards two disks sharing an id. */
  lemma SharingStep(f: Fleet, op: Op, a: DiskName, b: DiskName, id: Id)
    requires Inv(f) && Honest(f, op) && a != b && Holds(Perform(f, op), a, id) && Holds(Perform(f, op), b, id)
    ensures || (Holds(f, a, id) && Holds(f, b, id))
            || (op.Copy? && op.disk in {a, b} && op.from != op.disk && Holds(f, op.from, id))
  {
    if a in f.disks { assert Faithful(f.births, f.disks[a]); }
    if b in f.disks { assert Faithful(f.births, f.disks[b]); }
  }

  /** Starting from nothing, two disks have the same id only if one of them got it by a copy and has kept it since. */
  lemma {:induction false} SharedIdsWereCopied(ops: seq<Op>, i: nat, a: DiskName, b: DiskName, id: Id)
    requires AllHonest(Fleet(map[], map[]), ops) && i <= |ops| && a != b
    requires var states := Run(Fleet(map[], map[]), ops); Holds(states[i], a, id) && Holds(states[i], b, id)
    ensures var states := Run(Fleet(map[], map[]), ops);
            GotByCopy(states, ops, i, a, id) || GotByCopy(states, ops, i, b, id)
  {
    var none := Fleet(map[], map[]);
    var states := Run(none, ops);
    if i == 0 { return; }
    RunKeeps(none, ops, i - 1);
    var op := ops[i - 1];
    SharingStep(states[i - 1], op, a, b, id);
    if Holds(states[i - 1], a, id) && Holds(states[i - 1], b, id) {
      SharedIdsWereCopied(ops, i - 1, a, b, id);
      if GotByCopy(states, ops, i - 1, a, id) { StillByCopy(states, ops, i - 1, a, id); }
      else { StillByCopy(states, ops, i - 1, b, id); }
    } else {
      assert op.Copy? && Holds(states[i - 1], op.from, id);
      assert forall m :: i - 1 < m <= i ==> Holds(states[m], op.disk, id);
      assert GotByCopy(states, ops, i, op.disk, id);
    }
  }

  /** So a fleet whose disks are never copied whole never has two with one id. */
  lemma UncopiedIdsAreDistinct(ops: seq<Op>, i: nat, a: DiskName, b: DiskName, id: Id)
    requires AllHonest(Fleet(map[], map[]), ops) && i <= |ops| && a != b
    requires forall op :: op in ops ==> !op.Copy?
    ensures var f := Run(Fleet(map[], map[]), ops)[i]; !(Holds(f, a, id) && Holds(f, b, id))
  {
    var states := Run(Fleet(map[], map[]), ops);
    if Holds(states[i], a, id) && Holds(states[i], b, id) {
      SharedIdsWereCopied(ops, i, a, b, id);
      assert forall j :: 0 <= j < i ==> ops[j] in ops;
    }
  }
}
