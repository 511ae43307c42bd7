/** The journaled in-place upgrade of the managed Linux binaries.

    Every file-system primitive may fail without effect. A crash is the special case
    in which every later primitive fails, so whatever is proved of the disk a call
    leaves behind, and of every disk on `trail`, holds at each possible crash point. */
module LinuxInstaller {
  import opened Common

  datatype Name = Pfremote | Pfremoted | PfremoteUpdate

  const MANAGED: seq<Name> := [Pfremote, Pfremoted, PfremoteUpdate]

  datatype Node = Regular(data: string) | Irregular

  /** A journal that does not parse (for instance one cut short) is Unreadable;
      `others` counts entries for names that are not managed. */
  datatype Journal = Unreadable | Entries(existing: map<Name, bool>, others: nat)

  /** The managed entries of the three directories, stray temporary files, and the journal. */
  datatype Disk = Disk(bin: map<Name, Node>, work: map<Name, Node>, stage: map<Name, Node>,
                       temps: map<nat, string>, pending: Option<Journal>)

  datatype Directory = Bin | Work | Stage

  predicate Complete(j: Journal) {
    && j.Entries?
    && |j.existing| + j.others == |MANAGED|
    && Pfremote in j.existing && Pfremoted in j.existing && PfremoteUpdate in j.existing
  }

  predicate Armed(d: Disk) {
    d.pending.Some? && Complete(d.pending.value)
  }

  function Backups(d: Disk): map<Name, Node>
    requires Armed(d)
  {
    map n | n in d.work && n in d.pending.value.existing && d.pending.value.existing[n] :: d.work[n]
  }

  /** The binaries a restart will run: the backups named by a complete journal, or
      else whatever is installed. */
  function Recovered(d: Disk): map<Name, Node> {
    if Armed(d) then Backups(d) else d.bin
  }

  /** A complete journal only names backups that exist. */
  predicate Sound(d: Disk) {
    Armed(d) ==> forall n | n in d.pending.value.existing && d.pending.value.existing[n] :: n in d.work && d.work[n].Regular?
  }

  predicate Keeps(d: Disk, v: map<Name, Node>) {
    Sound(d) && Recovered(d) == v
  }

  /** The three managed names are recorded and nothing else. */
  predicate Intact(j: Journal) {
    j.Entries? && j.others == 0 && j.existing.Keys == {Pfremote, Pfremoted, PfremoteUpdate}
  }

  /** Without an intact journal a restart runs what is installed. Under one it runs, name by
      name, the backup if the binary had been there, and nothing if it had not. */
  lemma RecoveredMeans(d: Disk)
    ensures d.pending.None? || !Intact(d.pending.value) ==> Sound(d) && Recovered(d) == d.bin
    ensures d.pending.Some? && Intact(d.pending.value) && Sound(d) ==>
              forall n | n in d.pending.value.existing ::
                if d.pending.value.existing[n] then n in Recovered(d) && n in d.work && Recovered(d)[n] == d.work[n] && d.work[n].Regular?
                else n !in Recovered(d)
  {
    if d.pending.Some? {
      CompleteMeansIntact(d.pending.value);
    }
  }

  lemma CompleteMeansIntact(j: Journal)
    ensures Complete(j) <==> Intact(j)
  {
    if Complete(j) {
      assert {Pfremote, Pfremoted, PfremoteUpdate} <= j.existing.Keys;
      AllNames(j.existing.Keys);
    }
    if Intact(j) {
      assert |{Pfremote, Pfremoted, PfremoteUpdate}| == 3 == |j.existing.Keys|;
    }
  }

  /** There are no other names. */
  lemma AllNames(names: set<Name>)
    requires {Pfremote, Pfremoted, PfremoteUpdate} <= names
    ensures names == {Pfremote, Pfremoted, PfremoteUpdate} && |names| == 3
  {
    forall n | n in names
      ensures n in {Pfremote, Pfremoted, PfremoteUpdate}
    {
      match n
      case Pfremote =>
      case Pfremoted =>
      case PfremoteUpdate =>
    }
  }

  function Lookup(d: Disk, dir: Directory, name: Name): Option<Node> {
    var files := match dir case Bin => d.bin case Work => d.work case Stage => d.stage;
    if name in files then Some(files[name]) else None
  }

  function Put(d: Disk, dir: Directory, name: Name, node: Node): Disk {
    match dir
    case Bin => d.(bin := d.bin[name := node])
    case Work => d.(work := d.work[name := node])
    case Stage => d.(stage := d.stage[name := node])
  }

  predicate SameButTemps(a: Disk, b: Disk) {
    a == b.(temps := a.temps)
  }

  datatype Status = Missing | RegularFile | NotRegular | StatFailed
  datatype Outcome =
    | Done
    | Refused            // nothing beyond recovery and backups happened
    | RolledBack         // previous binaries restored and activated
    | ServicePending     // previous binaries restored, activation of them failed
    | RecoveryPending    // the journal is still there for a later Recover
    | CommitFailed       // the new binaries run but the journal could not be removed

  class Machine {
    var disk: Disk
    ghost var trail: seq<Disk>
    ghost var activations: seq<(map<Name, Node>, bool)>
    ghost var faults: nat // how many primitives failed of themselves

    ghost predicate Valid()
      reads this
    {
      trail != [] && trail[|trail| - 1] == disk && Sound(disk)
    }

    /** Every disk since position `from` recovers to `v`. */
    ghost predicate Steady(from: nat, v: map<Name, Node>)
      reads this
    {
      forall i | from <= i < |trail| :: Keeps(trail[i], v)
    }

    constructor (d: Disk)
      requires d.pending.None?
      ensures disk == d && Valid()
    {
      disk, trail, activations, faults := d, [d], [], 0;
    }

    // ---- file-system primitives -------------------------------------------------

    method Works() returns (works: bool)
      modifies this`faults
      ensures faults == old(faults) + if works then 0 else 1
    {
      works := *;
      if !works {
        faults := faults + 1;
      }
    }

    method ReadNode(dir: Directory, name: Name) returns (data: Option<string>)
      modifies this`faults
      ensures faults >= old(faults)
      ensures data.Some? ==> Lookup(disk, dir, name) == Some(Regular(data.value))
      ensures data.None? && faults == old(faults) ==> Lookup(disk, dir, name).None? || Lookup(disk, dir, name).value.Irregular?
    {
      var works := Works();
      data := None;
      match Lookup(disk, dir, name) {
        case Some(Regular(content)) => if works { data := Some(content); }
        case _ =>
      }
    }

    method Lstat(name: Name) returns (status: Status)
      modifies this`faults
      ensures faults >= old(faults) && (status == StatFailed ==> faults > old(faults))
      ensures status == Missing ==> name !in disk.bin
      ensures status == RegularFile ==> name in disk.bin && disk.bin[name].Regular?
      ensures status == NotRegular ==> name in disk.bin && disk.bin[name].Irregular?
    {
      var works := Works();
      if !works {
        status := StatFailed;
      } else if name !in disk.bin {
        status := Missing;
      } else {
        status := if disk.bin[name].Regular? then RegularFile else NotRegular;
      }
    }

    method CreateTemp() returns (t: Option<nat>)
      modifies this`disk, this`trail, this`faults
      ensures trail == old(trail) + [disk]
      ensures t.None? ==> disk == old(disk) && faults > old(faults)
      ensures t.Some? ==> t.value !in old(disk.temps) && disk == old(disk).(temps := old(disk.temps)[t.value := ""])
      ensures faults >= old(faults)
    {
      var works := Works();
      t := None;
      if works {
        var id: nat :| id !in disk.temps by { FreshTemp(disk.temps); }
        disk := disk.(temps := disk.temps[id := ""]);
        t := Some(id);
      }
      trail := trail + [disk];
    }

    method WriteTemp(t: nat, data: string) returns (ok: bool)
      modifies this`disk, this`trail, this`faults
      ensures trail == old(trail) + [disk]
      ensures SameButTemps(disk, old(disk)) && t in disk.temps
      ensures ok ==> disk.temps[t] == data
      ensures faults == old(faults) + if ok then 0 else 1
    {
      var written: string := *;
      ok := Works();
      if ok {
        written := data;
      }
      disk := disk.(temps := disk.temps[t := written]);
      trail := trail + [disk];
    }

    method Rename(t: nat, dir: Directory, name: Name) returns (ok: bool)
      requires t in disk.temps
      modifies this`disk, this`trail, this`faults
      ensures trail == old(trail) + [disk]
      ensures disk == if ok then Put(old(disk), dir, name, Regular(old(disk.temps)[t])).(temps := old(disk.temps) - {t})
                      else old(disk)
      ensures faults == old(faults) + if ok then 0 else 1
    {
      ok := Works();
      if ok {
        disk := Put(disk, dir, name, Regular(disk.temps[t])).(temps := disk.temps - {t});
      }
      trail := trail + [disk];
    }

    method RemoveTemp(t: nat)
      modifies this`disk, this`trail, this`faults
      ensures trail == old(trail) + [disk]
      ensures SameButTemps(disk, old(disk))
      ensures faults >= old(faults)
    {
      var works := Works();
      if works {
        disk := disk.(temps := disk.temps - {t});
      }
      trail := trail + [disk];
    }

    method RemoveBin(name: Name) returns (ok: bool)
      modifies this`disk, this`trail, this`faults
      ensures trail == old(trail) + [disk]
      ensures disk == if ok then old(disk).(bin := old(disk.bin) - {name}) else old(disk)
      ensures faults == old(faults) + if ok then 0 else 1
    {
      ok := Works();
      if ok {
        disk := disk.(bin := disk.bin - {name});
      }
      trail := trail + [disk];
    }

    method ReadPending() returns (found: bool, content: Option<Journal>)
      modifies this`faults
      ensures faults >= old(faults) && (found && content.None? ==> faults > old(faults))
      ensures !found ==> disk.pending.None?
      ensures found && content.Some? ==> disk.pending == content
    {
      var works := Works();
      found, content := true, None;
      if works {
        found, content := disk.pending.Some?, disk.pending;
      }
    }

    /** O_CREATE|O_EXCL, then Write, then Sync: each may fail, and a failed or
        interrupted write leaves a journal that does not parse. */
    method WritePending(j: Journal) returns (ok: bool)
      modifies this`disk, this`trail, this`faults
      ensures |trail| > |old(trail)| && old(trail) <= trail && trail[|trail| - 1] == disk
      ensures forall i | |old(trail)| <= i < |trail| ::
                trail[i] == old(disk)
                || (old(disk.pending).None? && (trail[i] == old(disk).(pending := Some(Unreadable)) || trail[i] == old(disk).(pending := Some(j))))
      ensures ok ==> old(disk.pending).None? && disk == old(disk).(pending := Some(j))
      ensures faults >= old(faults) && (!ok && old(disk.pending).None? ==> faults > old(faults))
    {
      var creates := Works();
      trail := trail + [disk];
      if disk.pending.Some? || !creates {
        return false;
      }
      disk := disk.(pending := Some(Unreadable));
      trail := trail + [disk];
      var writes := Works();
      if !writes {
        return false;
      }
      disk := disk.(pending := Some(j));
      trail := trail + [disk];
      ok := Works();
    }

    method RemovePending() returns (ok: bool)
      modifies this`disk, this`trail, this`faults
      ensures trail == old(trail) + [disk]
      ensures disk == if ok then old(disk).(pending := None) else old(disk)
      ensures faults == old(faults) + if ok then 0 else 1
    {
      ok := Works();
      if ok {
        disk := disk.(pending := None);
      }
      trail := trail + [disk];
    }

    /** Restarting the services: it succeeds or fails and does not touch the files. */
    method Activate() returns (ok: bool)
      modifies this`activations, this`faults
      ensures faults == old(faults) + if ok then 0 else 1
      ensures activations == old(activations) + [(disk.bin, ok)]
    {
      ok := Works();
      activations := activations + [(disk.bin, ok)];
    }

    // ---- the installer ----------------------------------------------------------

    /** Copy to a temporary file, then rename. The target's entry changes in one step. */
    method AtomicCopy(from: Directory, to: Directory, name: Name) returns (ok: bool)
      requires trail != [] && trail[|trail| - 1] == disk
      modifies this`disk, this`trail, this`faults
      ensures old(trail) <= trail && trail != [] && trail[|trail| - 1] == disk
      ensures ok ==> Lookup(old(disk), from, name).Some?
                     && Lookup(old(disk), from, name).value.Regular?
                     && SameButTemps(disk, Put(old(disk), to, name, Lookup(old(disk), from, name).value))
      ensures !ok ==> SameButTemps(disk, old(disk))
      ensures faults >= old(faults) && (!ok && faults == old(faults) ==> Lookup(old(disk), from, name).None? || Lookup(old(disk), from, name).value.Irregular?)
      ensures forall i | |old(trail)| <= i < |trail| ::
                SameButTemps(trail[i], old(disk))
                || (Lookup(old(disk), from, name).Some?
                    && SameButTemps(trail[i], Put(old(disk), to, name, Lookup(old(disk), from, name).value)))
    {
      var data := ReadNode(from, name);
      if data.None? {
        return false;
      }
      var temporary := CreateTemp();
      if temporary.None? {
        return false;
      }
      ok := WriteTemp(temporary.value, data.value);
      if ok {
        ok := Rename(temporary.value, to, name);
      }
      RemoveTemp(temporary.value);
    }

    /** Replacing an installed binary while the journal is complete. */
    method Replace(from: Directory, name: Name) returns (ok: bool)
      requires Valid() && Armed(disk)
      modifies this`disk, this`trail, this`faults
      ensures Valid() && old(trail) <= trail && Steady(|old(trail)|, Recovered(old(disk)))
      ensures disk == old(disk).(bin := disk.bin, temps := disk.temps) && Recovered(disk) == Recovered(old(disk))
      ensures ok ==> Lookup(old(disk), from, name).Some? && disk.bin == old(disk.bin)[name := Lookup(old(disk), from, name).value]
      ensures !ok ==> disk.bin == old(disk.bin)
      ensures faults >= old(faults) && (!ok && faults == old(faults) ==> Lookup(old(disk), from, name).None? || Lookup(old(disk), from, name).value.Irregular?)
    {
      ok := AtomicCopy(from, Bin, name);
    }

    /** Setting a binary aside while there is no journal. */
    method CopyAside(name: Name) returns (ok: bool)
      requires Valid() && disk.pending.None?
      modifies this`disk, this`trail, this`faults
      ensures Valid() && old(trail) <= trail && Steady(|old(trail)|, old(disk.bin))
      ensures disk == old(disk).(work := disk.work, temps := disk.temps)
      ensures ok ==> name in disk.bin && disk.bin[name].Regular? && disk.work == old(disk.work)[name := disk.bin[name]]
      ensures !ok ==> disk.work == old(disk.work)
      ensures faults >= old(faults) && (!ok && faults == old(faults) ==> name !in disk.bin || disk.bin[name].Irregular?)
    {
      ok := AtomicCopy(Bin, Work, name);
    }

    method Recover() returns (ok: bool)
      requires Valid()
      modifies this`disk, this`trail, this`faults
      ensures Valid() && old(trail) <= trail
      ensures Steady(|old(trail)|, Recovered(old(disk))) && Recovered(disk) == Recovered(old(disk))
      ensures ok ==> disk.pending.None? && disk.bin == Recovered(old(disk))
      ensures old(disk.pending).Some? && !Complete(old(disk.pending).value) ==> !ok && disk == old(disk)
      ensures disk.stage == old(disk.stage) && disk.work == old(disk.work)
      ensures faults >= old(faults) && (faults == old(faults) ==> (ok <==> old(disk.pending).None? || Complete(old(disk.pending).value)))
    {
      var found, content := ReadPending();
      if !found {
        return true;
      }
      if content.None? || !Complete(content.value) {
        return false;
      }
      var existing := content.value.existing;
      ghost var target := Recovered(disk);
      for k := 0 to |MANAGED|
        invariant Valid() && old(trail) <= trail
        invariant Steady(|old(trail)|, target) && Recovered(disk) == target
        invariant disk == old(disk).(bin := disk.bin, temps := disk.temps)
        invariant faults >= old(faults)
        invariant forall i | 0 <= i < k :: Lookup(disk, Bin, MANAGED[i]) ==
                    if MANAGED[i] in target then Some(target[MANAGED[i]]) else None
      {
        if existing[MANAGED[k]] {
          ok := Replace(Work, MANAGED[k]);
        } else {
          ok := RemoveBin(MANAGED[k]);
        }
        if !ok {
          return;
        }
      }
      AllManaged(disk.bin, target);
      ok := RemovePending();
    }

    method Rollback() returns (out: Outcome)
      requires Valid()
      modifies this
      ensures faults >= old(faults)
      ensures Valid() && old(trail) <= trail && Steady(|old(trail)|, Recovered(old(disk)))
      ensures Recovered(disk) == Recovered(old(disk)) && disk.stage == old(disk.stage)
      ensures out in {RolledBack, ServicePending, RecoveryPending}
      ensures out != RecoveryPending ==>
                && disk.pending.None? && disk.bin == Recovered(old(disk))
                && activations == old(activations) + [(disk.bin, out == RolledBack)]
    {
      var restored := Recover();
      if !restored {
        return RecoveryPending;
      }
      var healthy := Activate();
      out := if healthy then RolledBack else ServicePending;
    }

    /** One managed name: absent binaries are recorded as such, present ones copied. */
    method BackupOne(name: Name) returns (entry: Option<bool>)
      requires Valid() && disk.pending.None?
      modifies this`disk, this`trail, this`faults
      ensures Valid() && old(trail) <= trail && Steady(|old(trail)|, old(disk.bin))
      ensures disk == old(disk).(work := disk.work, temps := disk.temps)
      ensures entry.Some? ==> BackedUp(disk, name, entry.value)
      ensures disk.work == old(disk.work) || (name in disk.bin && disk.work == old(disk.work)[name := disk.bin[name]] && disk.bin[name].Regular?)
      ensures faults >= old(faults) && (entry.None? && faults == old(faults) ==> !AllRegular(disk.bin))
    {
      var status := Lstat(name);
      match status {
        case RegularFile =>
          var copied := CopyAside(name);
          entry := if copied then Some(true) else None;
        case Missing =>
          entry := Some(false);
        case _ =>
          entry := None;
      }
    }

    /** Copies every installed binary aside. Until the journal exists this changes
        nothing a restart would run. */
    method Backup() returns (existing: map<Name, bool>, ok: bool)
      requires Valid() && disk.pending.None?
      modifies this`disk, this`trail, this`faults
      ensures Valid() && old(trail) <= trail && Steady(|old(trail)|, old(disk.bin))
      ensures disk == old(disk).(work := disk.work, temps := disk.temps)
      ensures ok ==> BacksUp(disk, existing)
      ensures faults >= old(faults) && (!ok && faults == old(faults) ==> !AllRegular(disk.bin))
    {
      existing := map[];
      for k := 0 to |MANAGED|
        invariant Valid() && old(trail) <= trail && Steady(|old(trail)|, old(disk.bin))
        invariant disk == old(disk).(work := disk.work, temps := disk.temps)
        invariant faults >= old(faults)
        invariant existing.Keys == Elems(MANAGED[..k])
        invariant forall n | n in existing :: BackedUp(disk, n, existing[n])
      {
        var entry := BackupOne(MANAGED[k]);
        if entry.None? {
          return existing, false;
        }
        existing := existing[MANAGED[k] := entry.value];
        assert MANAGED[..k + 1] == MANAGED[..k] + [MANAGED[k]];
      }
      assert MANAGED[..3] == MANAGED;
      assert existing.Keys == {MANAGED[0], MANAGED[1], MANAGED[2]};
      ok := true;
    }

    method Upgrade() returns (out: Outcome)
      requires Valid()
      modifies this
      ensures Valid() && old(trail) <= trail && disk.stage == old(disk.stage)
      ensures out != Done ==> Steady(|old(trail)|, Recovered(old(disk))) && Recovered(disk) == Recovered(old(disk))
      ensures out == Done ==>
                && |trail| > |old(trail)|
                && (forall i | |old(trail)| <= i < |trail| - 1 :: Keeps(trail[i], Recovered(old(disk))))
                && disk.pending.None? && disk.bin == old(disk.stage)
                && |activations| > 0 && activations[|activations| - 1] == (old(disk.stage), true)
      ensures out in {RolledBack, ServicePending} ==>
                && disk.pending.None? && disk.bin == Recovered(old(disk))
                && |activations| > 0 && activations[|activations| - 1] == (disk.bin, out == RolledBack)
      ensures out == Refused ==> activations == old(activations)
      ensures faults == old(faults) && Upgradable(old(disk)) && Releasable(old(disk.stage)) ==> out == Done
      ensures out == CommitFailed ==>
                && Armed(disk) && disk.bin == old(disk.stage)
                && |activations| > 0 && activations[|activations| - 1] == (old(disk.stage), true)
    {
      ghost var target := Recovered(disk);
      var prepared := Prepare();
      if !prepared {
        return Refused;
      }
      for k := 0 to |MANAGED|
        invariant Valid() && old(trail) <= trail
        invariant Steady(|old(trail)|, target) && Recovered(disk) == target
        invariant Armed(disk) && disk.stage == old(disk.stage)
        invariant activations == old(activations) && faults >= old(faults)
        invariant forall i | 0 <= i < k :: Lookup(disk, Stage, MANAGED[i]).Some? && Lookup(disk, Bin, MANAGED[i]) == Lookup(disk, Stage, MANAGED[i])
      {
        var copied := Replace(Stage, MANAGED[k]);
        if !copied {
          out := Rollback();
          return;
        }
      }
      AllManaged(disk.bin, disk.stage);
      var healthy := Activate();
      if !healthy {
        out := Rollback();
        return;
      }
      var committed := RemovePending();
      out := if committed then Done else CommitFailed;
    }

    /** The first half of Upgrade: recover, back up, record intent. */
    method Prepare() returns (ok: bool)
      requires Valid()
      modifies this`disk, this`trail, this`faults
      ensures Valid() && old(trail) <= trail && disk.stage == old(disk.stage)
      ensures Steady(|old(trail)|, Recovered(old(disk))) && Recovered(disk) == Recovered(old(disk))
      ensures ok ==> Armed(disk) && disk.bin == Recovered(old(disk))
      ensures faults >= old(faults)
      ensures faults == old(faults) && Upgradable(old(disk)) ==> ok
    {
      ok := Recover();
      if !ok {
        return;
      }
      ok := Works(); // creating the work directory
      if !ok {
        return;
      }
      var existing, backedUp := Backup();
      if !backedUp {
        return false;
      }
      JournalKeeps(disk, existing);
      ok := WritePending(Entries(existing, 0));
    }
  }

  /** Nothing but a failing primitive can stop the upgrade. */
  predicate Upgradable(d: Disk) {
    && (d.pending.Some? ==> Complete(d.pending.value))
    && AllRegular(Recovered(d))
  }

  predicate AllRegular(files: map<Name, Node>) {
    forall n | n in files :: files[n].Regular?
  }

  predicate Releasable(stage: map<Name, Node>) {
    forall n | n in MANAGED :: n in stage && stage[n].Regular?
  }

  /** An upgrade needs no more than that: a journal that is intact if there is one, regular
      files where a restart would run something, and the three staged binaries. */
  lemma NothingElseStops(d: Disk)
    ensures Upgradable(d) && Releasable(d.stage) <==>
            && (d.pending.None? || Intact(d.pending.value))
            && (forall n | n in Recovered(d) :: Recovered(d)[n].Regular?)
            && forall n | n in {Pfremote, Pfremoted, PfremoteUpdate} :: n in d.stage && d.stage[n].Regular?
  {
    if d.pending.Some? {
      CompleteMeansIntact(d.pending.value);
    }
    assert Elems(MANAGED) == {MANAGED[0], MANAGED[1], MANAGED[2]};
    assert forall n: Name :: n in MANAGED <==> n in Elems(MANAGED);
  }

  predicate BackedUp(d: Disk, n: Name, present: bool) {
    present == (n in d.bin) && (present ==> n in d.work && d.work[n].Regular? && d.work[n] == d.bin[n])
  }

  predicate BacksUp(d: Disk, existing: map<Name, bool>) {
    && Complete(Entries(existing, 0))
    && forall n | n in existing :: BackedUp(d, n, existing[n])
  }

  lemma JournalKeeps(d: Disk, existing: map<Name, bool>)
    requires d.pending.None? && BacksUp(d, existing)
    ensures Keeps(d.(pending := Some(Unreadable)), d.bin)
    ensures Keeps(d.(pending := Some(Entries(existing, 0))), d.bin)
  {
    var armed := d.(pending := Some(Entries(existing, 0)));
    assert Armed(armed);
    forall n: Name
      ensures n in existing && BackedUp(d, n, existing[n])
      ensures n in Backups(armed) <==> n in d.bin
    {
      match n
      case Pfremote =>
      case Pfremoted =>
      case PfremoteUpdate =>
    }
  }

  lemma AllManaged(a: map<Name, Node>, b: map<Name, Node>)
    requires forall i | 0 <= i < |MANAGED| :: (MANAGED[i] in a <==> MANAGED[i] in b) && (MANAGED[i] in a ==> a[MANAGED[i]] == b[MANAGED[i]])
    ensures a == b
  {
    forall n: Name
      ensures (n in a <==> n in b) && (n in a ==> a[n] == b[n])
    {
      assert n == MANAGED[0] || n == MANAGED[1] || n == MANAGED[2];
    }
  }

  lemma FreshTemp(temps: map<nat, string>)
    ensures exists id: nat :: id !in temps
  {
    var bound := Largest(temps.Keys);
    assert bound + 1 !in temps;
  }

  ghost function Largest(ids: set<nat>): (bound: nat)
    ensures forall i | i in ids :: i <= bound
  {
    if ids == {} then 0
    else
      var i :| i in ids;
      var rest := Largest(ids - {i});
      assert ids == (ids - {i}) + {i};
      if i > rest then i else rest
  }

  // ---- whole runs -----------------------------------------------------------------

  /** What one call did: the disks it went through, cut anywhere by a crash. `Done`
      upgrades carry their commit point as the last disk. */
  datatype Episode = Episode(disks: seq<Disk>, committed: bool)

  /** The trail contract of Recover and of an Upgrade that did not return Done
      (committed == false), and of an Upgrade that did. */
  ghost predicate Contract(e: Episode) {
    && |e.disks| > 0
    && (!e.committed ==> forall i | 0 <= i < |e.disks| :: Keeps(e.disks[i], Recovered(e.disks[0])))
    && (e.committed ==>
          && |e.disks| > 1
          && (forall i | 0 <= i < |e.disks| - 1 :: Keeps(e.disks[i], Recovered(e.disks[0])))
          && Keeps(e.disks[|e.disks| - 1], e.disks[0].stage))
  }

  function CutAt(e: Episode, n: nat): Episode
    requires 0 < n <= |e.disks|
  {
    Episode(e.disks[..n], e.committed && n == |e.disks|)
  }

  /** A crash at any point of any call leaves an episode that keeps the contract. */
  lemma CrashKeepsContract(e: Episode, n: nat)
    requires Contract(e) && 0 < n <= |e.disks|
    ensures Contract(CutAt(e, n))
  {
    assert e.disks[..n][0] == e.disks[0];
  }

  function LastDisk(e: Episode): Disk
    requires |e.disks| > 0
  {
    e.disks[|e.disks| - 1]
  }

  /** Between two calls only the staging directory may change. */
  predicate Follows(e: Episode, next: Episode) {
    && |e.disks| > 0 && |next.disks| > 0
    && next.disks[0] == LastDisk(e).(stage := next.disks[0].stage)
  }

  ghost predicate IsRun(run: seq<Episode>) {
    && (forall i | 0 <= i < |run| :: Contract(run[i]))
    && (forall i, j | 0 <= i < j < |run| && j == i + 1 :: Follows(run[i], run[j]))
  }

  /** The staged set of the last committed upgrade, or else the binaries at the start. */
  function LastCommitted(initial: map<Name, Node>, run: seq<Episode>): map<Name, Node> {
    if run == [] then initial
    else
      var e := run[|run| - 1];
      if e.committed && |e.disks| > 0 then e.disks[0].stage else LastCommitted(initial, run[..|run| - 1])
  }

  /** That is the upgrade after which no other one committed, wherever it stands. */
  lemma {:induction false} LastCommittedMeans(initial: map<Name, Node>, run: seq<Episode>)
    ensures forall k | 0 <= k < |run| && run[k].committed && |run[k].disks| > 0 && NoneCommits(run[k + 1..]) ::
              LastCommitted(initial, run) == run[k].disks[0].stage
    ensures NoneCommits(run) ==> LastCommitted(initial, run) == initial
  {
    if run != [] {
      var last := |run| - 1;
      LastCommittedMeans(initial, run[..last]);
      forall k | 0 <= k < |run| && run[k].committed && |run[k].disks| > 0 && NoneCommits(run[k + 1..])
        ensures LastCommitted(initial, run) == run[k].disks[0].stage
      {
        if k < last {
          assert run[..last][k + 1..] == run[k + 1..][..last - k - 1];
          assert run[last] == run[k + 1..][last - k - 1];
        }
      }
    }
  }

  predicate NoneCommits(run: seq<Episode>) {
    forall i | 0 <= i < |run| :: !run[i].committed
  }

  /** Over any number of calls and crashes, what a restart runs is exactly the
      staged set of the last upgrade that returned Done, or the binaries it all
      started with: never a mixture. */
  lemma {:induction false} RunsNeverMix(run: seq<Episode>)
    requires |run| > 0 && IsRun(run)
    ensures Keeps(LastDisk(run[|run| - 1]), LastCommitted(Recovered(run[0].disks[0]), run))
  {
    var e := run[|run| - 1];
    var earlier := run[..|run| - 1];
    assert Contract(e);
    if |run| == 1 {
      assert LastCommitted(Recovered(run[0].disks[0]), earlier) == Recovered(run[0].disks[0]);
    } else {
      RunsNeverMix(earlier);
      var previous := run[|run| - 2];
      assert earlier[|earlier| - 1] == previous && Follows(previous, e);
      RestagingKeeps(LastDisk(previous), e.disks[0].stage);
    }
  }

  lemma RestagingKeeps(d: Disk, stage: map<Name, Node>)
    ensures Recovered(d.(stage := stage)) == Recovered(d)
    ensures Sound(d.(stage := stage)) == Sound(d)
  {
  }

  /** The contract the methods prove is the one runs are built from. */
  method CheckedUpgrade(m: Machine) returns (ghost e: Episode)
    requires m.Valid()
    modifies m
    ensures m.Valid() && Contract(e) && e.disks[0] == old(m.disk) && e.disks[|e.disks| - 1] == m.disk
  {
    ghost var n := |m.trail|;
    ghost var first := m.disk;
    var out := m.Upgrade();
    e := Episode([first] + m.trail[n..], out == Done);
  }

  method CheckedRecover(m: Machine) returns (ghost e: Episode)
    requires m.Valid()
    modifies m
    ensures m.Valid() && Contract(e) && !e.committed && e.disks[0] == old(m.disk) && e.disks[|e.disks| - 1] == m.disk
  {
    ghost var n := |m.trail|;
    ghost var first := m.disk;
    var ok := m.Recover();
    e := Episode([first] + m.trail[n..], false);
  }
}
