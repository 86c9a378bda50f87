/** The volume names used before "persistence" was dropped from them, which real drives still carry. */
module VolumeNames {
  import opened Basics
  import opened Text

  const OLD_LABEL := "USER_PERSISTENCE_"
  const OLD_VOLUME := "baseline_user_persistence_"
  const NEW_LABEL := "USER_"
  const NEW_VOLUME := "baseline_user_"

  const RENAMED: map<string, string> :=
    map["SUBSTRATE_PERSISTENCE" := "SUBSTRATE", "USER_PERSISTENCE" := "USER",
        "baseline_substrate_persistence" := "baseline_substrate", "baseline_user_persistence" := "baseline_user"]

  /** The current name of a label or volume, old or new. */
  function Canonical(name: string): string {
    if name in RENAMED then RENAMED[name]
    else if OLD_LABEL <= name then NEW_LABEL + name[|OLD_LABEL|..]
    else if OLD_VOLUME <= name then NEW_VOLUME + name[|OLD_VOLUME|..]
    else name
  }

  /** The old name of a current one, if it had another. */
  function Legacy(name: string): Option<string> {
    if name == "SUBSTRATE" then Some("SUBSTRATE_PERSISTENCE")
    else if name == "USER" then Some("USER_PERSISTENCE")
    else if name == "baseline_substrate" then Some("baseline_substrate_persistence")
    else if name == "baseline_user" then Some("baseline_user_persistence")
    else if NEW_LABEL <= name then Some(OLD_LABEL + name[|NEW_LABEL|..])
    else if NEW_VOLUME <= name then Some(OLD_VOLUME + name[|NEW_VOLUME|..])
    else None
  }

  /** The four names that were renamed as a whole, the two prefixes, and everything else stays. */
  lemma RenamedTo(rest: string)
    ensures Canonical("SUBSTRATE_PERSISTENCE") == "SUBSTRATE" && Canonical("USER_PERSISTENCE") == "USER"
    ensures Canonical("baseline_substrate_persistence") == "baseline_substrate"
    ensures Canonical("baseline_user_persistence") == "baseline_user"
    ensures Canonical("USER_PERSISTENCE_" + rest) == "USER_" + rest
    ensures Canonical("baseline_user_persistence_" + rest) == "baseline_user_" + rest
  {
    Lengths();
    OldLabelIsNew(rest);
    OldVolumeIsNew(rest);
  }

  lemma Lengths()
    ensures |"SUBSTRATE_PERSISTENCE"| == 21 && |"USER_PERSISTENCE"| == 16
    ensures |"baseline_substrate_persistence"| == 30 && |"baseline_user_persistence"| == 25
    ensures |OLD_LABEL| == 17 && |OLD_VOLUME| == 26 && |NEW_LABEL| == 5 && |NEW_VOLUME| == 14
  {
  }

  /** A long old name starts with a prefix that no other old name has. */
  lemma OldLabelIsNew(rest: string)
    ensures Canonical(OLD_LABEL + rest) == NEW_LABEL + rest
  {
    Lengths();
    var name := OLD_LABEL + rest;
    assert name[..17] == OLD_LABEL && name[17..] == rest;
    assert name[0] == 'U' && "SUBSTRATE_PERSISTENCE"[0] == 'S';
    assert "baseline_substrate_persistence"[0] == 'b' && "baseline_user_persistence"[0] == 'b';
  }

  lemma OldVolumeIsNew(rest: string)
    ensures Canonical(OLD_VOLUME + rest) == NEW_VOLUME + rest
  {
    Lengths();
    var name := OLD_VOLUME + rest;
    assert name[..26] == OLD_VOLUME && name[26..] == rest;
    assert name[0] == 'b' && name[9] == 'u' && OLD_LABEL[0] == 'U';
    assert "baseline_substrate_persistence"[9] == 's';
    assert "SUBSTRATE_PERSISTENCE"[0] == 'S' && "USER_PERSISTENCE"[0] == 'U';
  }

  /** The old name of a current name leads back to it. */
  lemma OldNameLeadsBack(name: string)
    requires Legacy(name).Some?
    ensures Canonical(Legacy(name).value) == name
  {
    if name in {"SUBSTRATE", "USER", "baseline_substrate", "baseline_user"} {
    } else if NEW_LABEL <= name {
      OldLabelIsNew(name[|NEW_LABEL|..]);
      assert NEW_LABEL + name[|NEW_LABEL|..] == name;
    } else {
      OldVolumeIsNew(name[|NEW_VOLUME|..]);
      assert NEW_VOLUME + name[|NEW_VOLUME|..] == name;
    }
  }

  lemma NewLabelIsOld(rest: string)
    ensures Legacy(NEW_LABEL + rest) == Some(OLD_LABEL + rest)
  {
    Lengths();
    var name := NEW_LABEL + rest;
    assert name[0] == 'U' && name[4] == '_' && name[5..] == rest;
    assert |"USER"| == 4 && "SUBSTRATE"[0] == 'S' && "baseline_substrate"[0] == 'b' && "baseline_user"[0] == 'b';
  }

  lemma NewVolumeIsOld(rest: string)
    ensures Legacy(NEW_VOLUME + rest) == Some(OLD_VOLUME + rest)
  {
    Lengths();
    var name := NEW_VOLUME + rest;
    assert name[0] == 'b' && name[9] == 'u' && name[14..] == rest && |name| >= 14;
    assert |"baseline_user"| == 13 && "baseline_substrate"[9] == 's' && "SUBSTRATE"[0] == 'S' && "USER"[0] == 'U';
    assert NEW_LABEL[0] == 'U';
  }

  /** A name is changed exactly when it is the old name of what it is changed to: nothing else is ever renamed, and no
      two names are renamed to the same one. */
  lemma RenamedExactly(name: string)
    ensures Canonical(name) != name <==> Legacy(Canonical(name)) == Some(name)
  {
    Lengths();
    if name in RENAMED {
      assert name in {"SUBSTRATE_PERSISTENCE", "USER_PERSISTENCE", "baseline_substrate_persistence",
                      "baseline_user_persistence"};
      assert |RENAMED[name]| < |name|;
    } else if OLD_LABEL <= name {
      NewLabelIsOld(name[17..]);
      assert OLD_LABEL + name[17..] == name;
    } else if OLD_VOLUME <= name {
      NewVolumeIsOld(name[26..]);
      assert OLD_VOLUME + name[26..] == name;
    } else if Legacy(name).Some? {
      OldNameLeadsBack(name);
    }
  }

  /** A persona's current label is taken for an old name, and renamed, exactly when the persona is called
      "persistence" or something that starts with "persistence_". */
  lemma PersonaLabelStableExactly(persona: string)
    ensures var up := Upper(persona);
            Canonical(NEW_LABEL + up) == NEW_LABEL + up <==> up != "PERSISTENCE" && !("PERSISTENCE_" <= up)
  {
    Lengths();
    var up := Upper(persona);
    var name := NEW_LABEL + up;
    assert name[..5] == NEW_LABEL && name[5..] == up && name[0] == 'U';
    assert "SUBSTRATE_PERSISTENCE"[0] == 'S' && OLD_VOLUME[0] == 'b';
    assert "baseline_substrate_persistence"[0] == 'b' && "baseline_user_persistence"[0] == 'b';
    assert "USER_PERSISTENCE" == NEW_LABEL + "PERSISTENCE" && OLD_LABEL == NEW_LABEL + "PERSISTENCE_";
    assert "USER_PERSISTENCE"[5..] == "PERSISTENCE";
    if OLD_LABEL <= name {
      assert name[..17] == OLD_LABEL && up[..12] == name[..17][5..] == "PERSISTENCE_";
      assert |Canonical(name)| == |name| - 12;
    }
    if "PERSISTENCE_" <= up { assert name[..17] == NEW_LABEL + up[..12]; }
  }
}
