/** The identity an install keeps on its SUBSTRATE volume, and what the operations on one disk do to it. */
module InstallIdentity {
  import opened Basics

  type Id = string
  type Digest = string

  // `digest` is nothing when no SMBIOS value could be used.
  datatype Fingerprint = Fingerprint(digest: Option<Digest>, weak: bool)
  datatype Identity = Identity(id: Id, createdAt: int, parent: Option<Id>, generation: int, digest: Option<Digest>,
                               weak: bool, alias: string)

  datatype Status = Created | Existing | HardwareChanged | FingerprintUnavailable
  datatype Event = CreatedEvent | AdoptedEvent | ForkedEvent | AliasedEvent
  datatype Entry = Entry(at: int, event: Event, identity: Identity)

  // The identity file, and the history file beside it.
  datatype Disk = Disk(stored: Option<Identity>, history: seq<Entry>)
  const FRESH := Disk(None, [])

  function Recorded(d: Disk, now: int, event: Event, identity: Identity): Disk {
    Disk(Some(identity), d.history + [Entry(now, event, identity)])
  }

  // ----- operations ----------------------------------------------------------------------------------------------

  function Minted(now: int, fp: Fingerprint, parent: Option<Id>, parentGeneration: int, newId: Id): Identity {
    Identity(newId, now, parent, if parent.Some? then parentGeneration + 1 else 0, fp.digest, fp.weak, "")
  }

  /** How the stored identity fits the hardware it is found on. */
  function Fit(stored: Identity, fp: Fingerprint): Status {
    if fp.digest.None? || stored.digest.None? then FingerprintUnavailable
    else if stored.digest != fp.digest then HardwareChanged
    else Existing
  }

  function Ensured(d: Disk, now: int, fp: Fingerprint, parent: Option<Id>, parentGeneration: int, newId: Id): Disk {
    if d.stored.Some? then d else Recorded(d, now, CreatedEvent, Minted(now, fp, parent, parentGeneration, newId))
  }

  function Adopted(d: Disk, now: int, fp: Fingerprint): Disk {
    if d.stored.None? || fp.digest.None? then d
    else Recorded(d, now, AdoptedEvent, d.stored.value.(digest := fp.digest, weak := fp.weak))
  }

  function Forked(d: Disk, now: int, fp: Fingerprint, newId: Id): Disk {
    if d.stored.None? then d
    else
      var current := d.stored.value;
      Recorded(d, now, ForkedEvent,
               Identity(newId, now, Some(current.id), current.generation + 1, fp.digest, fp.weak, ""))
  }

  function Aliased(d: Disk, now: int, alias: string, valid: bool): Disk {
    if !valid || d.stored.None? then d else Recorded(d, now, AliasedEvent, d.stored.value.(alias := alias))
  }

  /** One disk's SUBSTRATE volume. */
  class Substrate {
    var stored: Option<Identity>
    var history: seq<Entry>

    constructor (disk: Disk)
      ensures Here() == disk
    {
      stored, history := disk.stored, disk.history;
    }

    function Here(): Disk
      reads this
    { Disk(stored, history) }

    /** Writes the identity, then appends to the history. */
    method Write(now: int, event: Event, identity: Identity)
      modifies this
      ensures Here() == Recorded(old(Here()), now, event, identity)
    {
      stored := Some(identity);
      history := history + [Entry(now, event, identity)];
    }

    /** Never replaces a stored identity, whatever hardware it is found on. */
    method EnsureIdentity(now: int, fp: Fingerprint, parent: Option<Id>, parentGeneration: int, newId: Id)
      returns (identity: Identity, status: Status)
      modifies this
      ensures Here() == Ensured(old(Here()), now, fp, parent, parentGeneration, newId)
      ensures stored == Some(identity)
      ensures status == if old(stored).None? then Created else Fit(old(stored).value, fp)
      ensures old(stored).Some? ==> Here() == old(Here())
      // a new identity says when, on what hardware and from whom it comes, and opens the history
      ensures old(stored).None? ==>
                && identity == Identity(newId, now, parent, if parent.None? then 0 else parentGeneration + 1, fp.digest,
                                        fp.weak, "")
                && history == old(history) + [Entry(now, CreatedEvent, identity)]
      // other hardware is reported, and so is hardware that cannot be told
      ensures old(stored).Some? ==>
                && (status == HardwareChanged
                    <==> fp.digest.Some? && identity.digest.Some? && fp.digest.value != identity.digest.value)
                && (status == Existing
                    <==> fp.digest.Some? && identity.digest.Some? && fp.digest.value == identity.digest.value)
                && (status == FingerprintUnavailable <==> fp.digest.None? || identity.digest.None?)
    {
      if stored.Some? {
        identity := stored.value;
        if fp.digest.None? || identity.digest.None? { return identity, FingerprintUnavailable; }
        if identity.digest != fp.digest { return identity, HardwareChanged; }
        return identity, Existing;
      }
      identity := Minted(now, fp, parent, parentGeneration, newId);
      Write(now, CreatedEvent, identity);
      status := Created;
    }

    /** Same install on new hardware: only the fingerprint changes, and the next check finds it fitting. */
    method AdoptHardware(now: int, fp: Fingerprint) returns (identity: Option<Identity>)
      modifies this
      ensures Here() == Adopted(old(Here()), now, fp)
      ensures identity.Some? <==> old(stored).Some? && fp.digest.Some?
      ensures identity.Some? ==> stored == identity && Fit(identity.value, fp) == Existing
      ensures identity.Some? ==> identity.value == old(stored).value.(digest := fp.digest, weak := fp.weak)
      ensures identity.Some? ==> history == old(history) + [Entry(now, AdoptedEvent, identity.value)]
      ensures identity.None? ==> Here() == old(Here())
    {
      if stored.None? || fp.digest.None? { return None; }
      var current := stored.value.(digest := fp.digest, weak := fp.weak);
      Write(now, AdoptedEvent, current);
      identity := Some(current);
    }

    /** Gives a copied disk an id of its own and keeps the copied one as its parent. */
    method ForkIdentity(now: int, fp: Fingerprint, newId: Id) returns (identity: Option<Identity>)
      modifies this
      ensures Here() == Forked(old(Here()), now, fp, newId)
      ensures identity.Some? <==> old(stored).Some?
      ensures identity.Some? ==> stored == identity && identity.value.parent == Some(old(stored).value.id)
      ensures identity.Some? ==> identity.value == Identity(newId, now, Some(old(stored).value.id),
                                                            old(stored).value.generation + 1, fp.digest, fp.weak, "")
      ensures identity.Some? ==> history == old(history) + [Entry(now, ForkedEvent, identity.value)]
      ensures identity.None? ==> Here() == old(Here())
    {
      if stored.None? { return None; }
      var forked := Identity(newId, now, Some(stored.value.id), stored.value.generation + 1, fp.digest, fp.weak, "");
      Write(now, ForkedEvent, forked);
      identity := Some(forked);
    }

    /** `valid` is the verdict of the naming rules on the alias. */
    method SetAlias(now: int, alias: string, valid: bool) returns (identity: Option<Identity>)
      modifies this
      ensures Here() == Aliased(old(Here()), now, alias, valid)
      ensures identity.Some? <==> valid && old(stored).Some?
      ensures identity.Some? ==> stored == identity && identity.value.id == old(stored).value.id
      ensures identity.Some? ==> identity.value == old(stored).value.(alias := alias)
      ensures identity.Some? ==> history == old(history) + [Entry(now, AliasedEvent, identity.value)]
      ensures identity.None? ==> Here() == old(Here())
    {
      if !valid || stored.None? { return None; }
      var current := stored.value.(alias := alias);
      Write(now, AliasedEvent, current);
      identity := Some(current);
    }
  }
}
