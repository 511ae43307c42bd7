/** The versioned Windows installation: version directories, current.json and the
    pending-upgrade record.

    Every file-system primitive may fail. A crash is the case in which every later
    primitive fails, so what is proved of every disk on `trail` holds at each crash point. */
module WindowsInstaller {
  import opened Common

  const APP := "PFRemoteCenter.exe"

  /** Files by path; the value stands for the content hash. */
  type Files = map<string, string>

  /** `previous` is empty when there is none. */
  datatype State = State(current: string, previous: string)
  datatype Pending = Unreadable | Before(state: State)
  datatype Manifest = Manifest(version: string, files: Files)

  /** `verified` records the manifest each version directory was last checked against. */
  datatype Disk = Disk(versions: map<string, Files>, verified: map<string, Files>, current: Option<State>,
                       pending: Option<Pending>, marker: bool)

  /** A downloaded release: its manifest when that parses and hashes as expected,
      whether the archive hash matches, and what the archive unpacks to. */
  datatype Package = Package(manifest: Option<Manifest>, payloadMatches: bool, unpacksTo: Files)

  /** Manifests only parse with a version that is not empty. */
  predicate Usable(p: Package) {
    p.manifest.Some? && p.manifest.value.version != "" && p.payloadMatches
  }

  predicate Holds(have: Files, want: Files) {
    forall path | path in want :: path in have && have[path] == want[path]
  }

  /** A version directory that contains everything its manifest lists. */
  predicate Complete(d: Disk, version: string) {
    version != "" && version in d.versions && version in d.verified && Holds(d.versions[version], d.verified[version])
  }

  predicate SoundState(d: Disk, s: State) {
    Complete(d, s.current) && s.current != s.previous && (s.previous != "" ==> Complete(d, s.previous))
  }

  /** current.json names complete directories, and so does a pending record. */
  predicate Safe(d: Disk) {
    && (d.current.Some? ==> SoundState(d, d.current.value))
    && (d.pending.Some? && d.pending.value.Before? ==> d.current.Some? && SoundState(d, d.pending.value.state))
  }

  /** The state a restart settles on: the one before an interrupted upgrade, if any. */
  function Settled(d: Disk): Option<State> {
    if d.pending.Some? && d.pending.value.Before? then Some(d.pending.value.state) else d.current
  }

  predicate Keeps(d: Disk, s: Option<State>) {
    Safe(d) && Settled(d) == s
  }

  /** What a successful installation writes to current.json. */
  function NextState(before: Option<State>, version: string): State {
    if before.None? then State(version, "")
    else if before.value.current != version then State(version, before.value.current)
    else State(version, before.value.previous)
  }

  function HasApp(d: Disk, version: string): bool {
    version in d.versions && APP in d.versions[version]
  }

  /** A disk of an installation in progress: sound, with this record and this state. */
  predicate Phase(d: Disk, pending: Option<Pending>, current: Option<State>) {
    Safe(d) && d.pending == pending && d.current == current
  }

  /** Only version directories outside `keep` differ. */
  predicate Spares(before: Disk, after: Disk, keep: set<string>) {
    && after == before.(versions := after.versions)
    && after.versions.Keys <= before.versions.Keys
    && forall v | v in keep :: (v in after.versions <==> v in before.versions)
                               && (v in before.versions ==> after.versions[v] == before.versions[v])
  }

  predicate Covers(keep: set<string>, current: Option<State>) {
    current.Some? ==> current.value.current in keep && current.value.previous in keep + {""}
  }

  /** This version directory is there with the same files as before. */
  predicate Untouched(before: Disk, after: Disk, version: string) {
    version in before.versions ==> version in after.versions && after.versions[version] == before.versions[version]
  }

  /** What a finished installation of `version` leaves: it is current, the version that was
      current is the previous one and whole, and a reinstallation leaves the previous one. */
  predicate Succeeds(before: Disk, after: Disk, version: string) {
    match before.current
    case None => after.current == Some(State(version, ""))
    case Some(s) =>
      && Untouched(before, after, s.current)
      && (version != s.current ==> after.current == Some(State(version, s.current)))
      && (version == s.current ==> after.current == before.current && Untouched(before, after, s.previous))
  }

  /** The package's manifest and archive are the expected ones, and every file of it is there. */
  predicate Delivered(after: Disk, p: Package) {
    && p.manifest.Some? && p.payloadMatches && p.manifest.value.version in after.versions
    && var have := after.versions[p.manifest.value.version];
       forall path | path in p.manifest.value.files :: path in have && have[path] == p.manifest.value.files[path]
  }

  /** The program of this version is there. */
  predicate Runnable(d: Disk, version: string) {
    version in d.versions && "PFRemoteCenter.exe" in d.versions[version]
  }

  /** Of the version directories only those current.json names are left. */
  predicate Tidy(d: Disk) {
    d.current.Some? && d.versions.Keys <= {d.current.value.current, d.current.value.previous}
  }

  datatype Outcome =
    | Upgraded
    | Refused          // nothing was recorded and nothing changed
    | Restored         // failed, and the previous state is back and activated
    | RecoveryPending  // failed, the record is still there
    | Unrecorded       // the new version runs but the record could not be removed

  class Root {
    var disk: Disk
    ghost var trail: seq<Disk>
    ghost var activations: seq<(string, bool)>
    ghost var faults: nat // how many primitives failed of themselves

    ghost predicate Valid()
      reads this
    {
      trail != [] && trail[|trail| - 1] == disk && Safe(disk)
    }

    ghost predicate Steady(from: nat, s: Option<State>)
      reads this
    {
      forall i | from <= i < |trail| :: Keeps(trail[i], s)
    }

    ghost predicate Staged(from: nat, to: nat, pending: Option<Pending>, current: Option<State>)
      reads this
    {
      forall i | from <= i < to && i < |trail| :: Phase(trail[i], pending, current)
    }

    constructor ()
      ensures Valid() && disk == Disk(map[], map[], None, None, false)
    {
      disk := Disk(map[], map[], None, None, false);
      trail, activations, faults := [Disk(map[], map[], None, None, false)], [], 0;
    }

    // ---- file-system primitives -------------------------------------------------

    method Works() returns (works: bool)
      modifies this`faults
      ensures faults == old(faults) + if works then 0 else 1
    {
      works := *;
      if !works {
        faults := faults + 1;
      }
    }

    method LoadState() returns (state: Option<State>)
      modifies this`faults
      ensures state.Some? ==> disk.current == state
      ensures faults >= old(faults) && (state.None? && faults == old(faults) ==> disk.current.None?)
    {
      var works := Works();
      state := if works then disk.current else None;
    }

    /** Stage, sync, rename: current.json changes in one step or not at all. */
    method WriteState(s: State) returns (ok: bool)
      modifies this`disk, this`trail, this`faults
      ensures trail == old(trail) + [disk]
      ensures disk == if ok then old(disk).(current := Some(s)) else old(disk)
      ensures faults == old(faults) + if ok then 0 else 1
    {
      ok := Works();
      if ok {
        disk := disk.(current := Some(s));
      }
      trail := trail + [disk];
    }

    method WriteRecord(s: State) returns (ok: bool)
      modifies this`disk, this`trail, this`faults
      ensures trail == old(trail) + [disk]
      ensures disk == if ok then old(disk).(pending := Some(Before(s))) else old(disk)
      ensures faults == old(faults) + if ok then 0 else 1
    {
      ok := Works();
      if ok {
        disk := disk.(pending := Some(Before(s)));
      }
      trail := trail + [disk];
    }

    method RemoveRecord() returns (ok: bool)
      modifies this`disk, this`trail, this`faults
      ensures trail == old(trail) + [disk]
      ensures disk == if ok then old(disk).(pending := None) else old(disk)
      ensures faults == old(faults) + if ok then 0 else 1
    {
      ok := Works();
      if ok {
        disk := disk.(pending := None);
      }
      trail := trail + [disk];
    }

    method WriteMarker() returns (ok: bool)
      modifies this`disk, this`trail, this`faults
      ensures trail == old(trail) + [disk]
      ensures disk == if ok then old(disk).(marker := true) else old(disk)
      ensures faults == old(faults) + if ok then 0 else 1
    {
      ok := Works();
      if ok {
        disk := disk.(marker := true);
      }
      trail := trail + [disk];
    }

    /** Moving a fully extracted staging directory into place. */
    method PlaceVersion(m: Manifest) returns (ok: bool)
      requires m.version !in disk.versions
      modifies this`disk, this`trail, this`faults
      ensures trail == old(trail) + [disk]
      ensures disk == if ok then old(disk).(versions := old(disk.versions)[m.version := m.files],
                                            verified := old(disk.verified)[m.version := m.files]) else old(disk)
      ensures faults == old(faults) + if ok then 0 else 1
    {
      ok := Works();
      if ok {
        disk := disk.(versions := disk.versions[m.version := m.files], verified := disk.verified[m.version := m.files]);
      }
      trail := trail + [disk];
    }

    /** Removing a directory tree is not atomic: it may stop anywhere on the way. */
    method RemoveTree(version: string, ghost keep: set<string>) returns (ok: bool)
      requires version in disk.versions && version !in keep
      modifies this`disk, this`trail, this`faults
      ensures old(trail) < trail && trail[|trail| - 1] == disk
      ensures forall i | |old(trail)| <= i < |trail| :: Spares(old(disk), trail[i], keep)
      ensures disk.versions.Keys == if ok then old(disk.versions).Keys - {version} else old(disk.versions).Keys
      ensures faults == old(faults) + if ok then 0 else 1
    {
      var left: Files := *;
      disk := disk.(versions := disk.versions[version := left]);
      trail := trail + [disk];
      ok := Works();
      if ok {
        disk := disk.(versions := disk.versions - {version});
      }
      trail := trail + [disk];
    }

    method Activate(version: string) returns (ok: bool)
      modifies this`activations, this`faults
      ensures activations == old(activations) + [(version, ok)]
      ensures faults == old(faults) + if ok then 0 else 1
    {
      ok := Works();
      activations := activations + [(version, ok)];
    }

    // ---- the installer ----------------------------------------------------------

    method NoPending() returns (clear: bool)
      modifies this`faults
      ensures clear ==> disk.pending.None?
      ensures faults >= old(faults) && (!clear && faults == old(faults) ==> disk.pending.Some?)
    {
      var works := Works();
      clear := works && disk.pending.None?;
    }

    /** Removes every version directory not named in `keep`, stopping at the first failure. */
    method Prune(keep: set<string>) returns (ok: bool)
      requires Valid() && disk.pending.None? && Covers(keep, disk.current)
      modifies this`disk, this`trail, this`faults
      ensures Valid() && old(trail) <= trail
      ensures Staged(|old(trail)|, |trail|, None, old(disk.current))
      ensures Spares(old(disk), disk, keep)
      ensures disk == old(disk).(versions := disk.versions) && disk.versions.Keys <= old(disk.versions).Keys
      ensures forall v | v in keep :: Untouched(old(disk), disk, v)
      ensures ok ==> disk.versions.Keys <= keep
      ensures faults >= old(faults) && (!ok ==> faults > old(faults))
    {
      hide Safe, Spares, Covers;
      SparesItself(disk, keep);
      ok := Works(); // listing the directory
      if ok {
        ok := RemoveAll(disk.versions.Keys - keep, keep);
      }
      forall i | |old(trail)| <= i < |trail|
        ensures Phase(trail[i], None, old(disk.current))
      {
        SparingKeeps(old(disk), trail[i], keep);
      }
      SparingKeeps(old(disk), disk, keep);
      SparedUntouched(old(disk), disk, keep);
    }

    method RemoveAll(obsolete: set<string>, ghost keep: set<string>) returns (ok: bool)
      requires obsolete !! keep && obsolete <= disk.versions.Keys <= keep + obsolete
      requires trail != [] && trail[|trail| - 1] == disk
      modifies this`disk, this`trail, this`faults
      ensures old(trail) <= trail && trail != [] && trail[|trail| - 1] == disk && Spares(old(disk), disk, keep)
      ensures forall i | |old(trail)| <= i < |trail| :: Spares(old(disk), trail[i], keep)
      ensures ok ==> disk.versions.Keys <= keep
      ensures faults >= old(faults) && (!ok ==> faults > old(faults))
    {
      hide Spares;
      SparesItself(disk, keep);
      var entries := obsolete;
      while entries != {}
        invariant old(trail) <= trail && trail != [] && trail[|trail| - 1] == disk && Spares(old(disk), disk, keep)
        invariant forall i | |old(trail)| <= i < |trail| :: Spares(old(disk), trail[i], keep)
        invariant entries <= disk.versions.Keys <= keep + entries && entries !! keep
        invariant faults == old(faults)
        decreases |entries|
      {
        var version :| version in entries;
        entries := entries - {version};
        ghost var start, before := |trail|, disk;
        ok := RemoveTree(version, keep);
        forall i | start <= i < |trail|
          ensures Spares(old(disk), trail[i], keep)
        {
          SparingTwice(old(disk), before, trail[i], keep);
        }
        if !ok {
          return;
        }
      }
      ok := true;
    }

    /** Unpacks and verifies into a staging directory, then renames it into place; an
        existing directory must match the manifest instead. */
    method ProvideVersion(p: Package) returns (ok: bool)
      requires Valid() && Usable(p)
      modifies this`disk, this`trail, this`faults
      ensures Valid() && old(trail) <= trail
      ensures Staged(|old(trail)|, |trail|, old(disk.pending), old(disk.current))
      ensures Phase(disk, old(disk.pending), old(disk.current)) && disk.marker == old(disk.marker)
      ensures ok ==> Complete(disk, p.manifest.value.version) && Holds(disk.versions[p.manifest.value.version], p.manifest.value.files)
      ensures !ok ==> disk == old(disk)
      ensures forall v | v in old(disk.versions) :: v in disk.versions && disk.versions[v] == old(disk.versions)[v]
      ensures faults >= old(faults) && (!ok && faults == old(faults) ==> !Providable(old(disk), p))
    {
      var m := p.manifest.value;
      ghost var before := disk;
      ok := Works();
      if m.version in disk.versions {
        if !ok || !Holds(disk.versions[m.version], m.files) {
          return false;
        }
        VerifyingKeeps(before, m);
        disk := disk.(verified := disk.verified[m.version := m.files]);
        trail := trail + [disk];
      } else {
        if !ok || p.unpacksTo != m.files {
          return false;
        }
        PlacingKeeps(before, m);
        ok := PlaceVersion(m);
      }
    }

    /** The state switch that ends an installation. The disks up to `point` still have
        the old state, the ones from there on the new one. */
    method Switch(next: State, prune: bool) returns (ok: bool, ghost point: nat)
      requires Valid() && SoundState(disk, next) && (prune ==> disk.pending.None?)
      modifies this`disk, this`trail, this`faults
      ensures Valid() && old(trail) <= trail && |old(trail)| <= point <= |trail|
      ensures Staged(|old(trail)|, point, old(disk.pending), old(disk.current))
      ensures Staged(point, |trail|, old(disk.pending), Some(next))
      ensures point == |trail| ==> !ok && disk == old(disk)
      ensures ok ==> disk.marker && Spares(old(disk).(current := Some(next), marker := true), disk, {next.current, next.previous})
      ensures ok && prune && faults == old(faults) ==> Tidy(disk)
      ensures faults >= old(faults) && (!ok ==> faults > old(faults))
    {
      point := |trail|;
      ok := WriteState(next);
      if !ok {
        point := |trail|;
        return;
      }
      ok := WriteMarker();
      if ok && prune {
        var _ := Prune({next.current, next.previous});
      }
    }

    /** The package is usable and the current state read; obsolete versions may go first. */
    method Ready(p: Package, prune: bool) returns (ready: bool, before: Option<State>, keep: set<string>)
      requires Valid() && (prune ==> disk.pending.None?)
      modifies this`disk, this`trail, this`faults
      ensures Valid() && old(trail) <= trail && Staged(|old(trail)|, |trail|, old(disk.pending), old(disk.current))
      ensures Phase(disk, old(disk.pending), old(disk.current))
      ensures ready ==> Usable(p) && before == disk.current
                        && keep == {p.manifest.value.version} + (if before.Some? then {before.value.current, before.value.previous} else {})
                        && Spares(old(disk), disk, keep) && Providable(old(disk), p) == Providable(disk, p)
      ensures faults >= old(faults) && (!ready && faults == old(faults) ==> !Usable(p))
    {
      hide Safe, Spares, Holds, SoundState, Providable;
      ready, before, keep := false, None, {};
      if !Usable(p) {
        return;
      }
      before := LoadState();
      if before.None? {
        var absent := Works();
        if !absent || disk.current.Some? {
          return;
        }
      }
      keep := {p.manifest.value.version} + if before.Some? then {before.value.current, before.value.previous} else {};
      SparesItself(disk, keep);
      if prune {
        var _ := Prune(keep);
        PruningKeepsProvidable(old(disk), disk, keep, p);
      }
      ready := true;
    }

    /** The steps Install and Upgrade share. */
    method InstallPackage(p: Package, prune: bool) returns (ok: bool, ghost point: nat)
      requires Valid() && (prune ==> disk.pending.None?)
      modifies this`disk, this`trail, this`faults
      ensures Valid() && old(trail) <= trail && |old(trail)| <= point <= |trail|
      ensures Staged(|old(trail)|, point, old(disk.pending), old(disk.current))
      ensures point < |trail| ==>
                && Usable(p)
                && Staged(point, |trail|, old(disk.pending), Some(NextState(old(disk.current), p.manifest.value.version)))
      ensures disk.pending == old(disk.pending)
      ensures ok ==> point < |trail| && disk.marker && Installed(disk, old(disk.current), p) && Delivered(disk, p)
      ensures ok ==> Succeeds(old(disk), disk, p.manifest.value.version)
      ensures ok && prune && faults == old(faults) ==> Tidy(disk)
      ensures faults >= old(faults) && (!ok && faults == old(faults) ==> !(Usable(p) && Providable(old(disk), p)))
    {
      hide Safe, Spares, Holds, SoundState, NextState, Succeeds, Providable, Installed, Delivered, Tidy;
      ok, point := false, |trail|;
      var ready, before, keep := Ready(p, prune);
      point := |trail|;
      if !ready {
        return;
      }
      ghost var pruned := disk;
      ok := ProvideVersion(p);
      point := |trail|;
      if !ok {
        return;
      }
      NextIsSound(disk, before, p.manifest.value.version);
      ghost var provided := disk;
      ok, point := Switch(NextState(before, p.manifest.value.version), prune);
      if ok {
        SwitchedHolds(provided, disk, before, p);
        InstalledIsDelivered(disk, before, p);
        SwitchSucceeds(old(disk), pruned, provided, disk, p.manifest.value.version, keep);
      }
    }

    /** Outside an upgrade every write leaves either the old or the new state. */
    method Install(p: Package) returns (ok: bool, ghost point: nat)
      requires Valid()
      modifies this
      ensures Valid() && old(trail) <= trail && activations == old(activations) && disk.pending == old(disk.pending)
      ensures |old(trail)| <= point <= |trail|
      ensures Staged(|old(trail)|, point, old(disk.pending), old(disk.current))
      ensures point < |trail| ==>
                && Usable(p)
                && Staged(point, |trail|, None, Some(NextState(old(disk.current), p.manifest.value.version)))
      ensures old(disk.pending).Some? ==> !ok && disk == old(disk) && trail == old(trail)
      ensures ok ==> point < |trail| && Installed(disk, old(disk.current), p) && disk.marker
      ensures ok ==> Delivered(disk, p) && Succeeds(old(disk), disk, p.manifest.value.version)
      ensures ok && faults == old(faults) ==> Tidy(disk)
      ensures faults >= old(faults)
      ensures !ok && faults == old(faults) ==> old(disk.pending).Some? || !(Usable(p) && Providable(old(disk), p))
    {
      var clear := NoPending();
      if !clear {
        return false, |trail|;
      }
      ok, point := InstallPackage(p, true);
    }

    method Rollback() returns (ok: bool)
      requires Valid()
      modifies this
      ensures Valid() && old(trail) <= trail && activations == old(activations)
      ensures old(disk.pending).Some? ==> !ok
      ensures ok ==> old(disk.current).Some? && old(disk.current).value.previous != ""
                     && disk == old(disk).(current := Some(Swapped(old(disk.current).value)))
                     && disk.current == Some(State(old(disk.current).value.previous, old(disk.current).value.current))
                     && Runnable(disk, disk.current.value.current)
      ensures !ok ==> disk == old(disk)
      ensures forall i | |old(trail)| <= i < |trail| :: trail[i] == disk
      ensures faults >= old(faults) && (ok ==> |trail| > |old(trail)|)
      ensures !ok && faults == old(faults) ==>
                old(disk.pending).Some? || old(disk.current).None? || old(disk.current).value.previous == ""
                || !HasApp(old(disk), old(disk.current).value.previous)
    {
      var clear := NoPending();
      if !clear {
        return false;
      }
      var state := LoadState();
      if state.None? || state.value.previous == "" {
        return false;
      }
      var works := Works();
      if !works || !HasApp(disk, state.value.previous) {
        return false;
      }
      ok := WriteState(Swapped(state.value));
    }

    /** Reinstates the recorded state exactly; a record that does not parse stops it. */
    method RecoverPending() returns (ok: bool)
      requires Valid() && disk.pending.Some?
      modifies this
      ensures Valid() && old(trail) <= trail && Steady(|old(trail)|, Settled(old(disk))) && Settled(disk) == Settled(old(disk))
      ensures disk.versions == old(disk.versions)
      ensures old(disk.pending).value.Unreadable? ==> !ok && disk == old(disk) && activations == old(activations)
      ensures ok ==> disk.pending.None? && disk.current.Some? && old(disk.pending) == Some(Before(disk.current.value))
                     && Runnable(disk, disk.current.value.current)
                     && activations == old(activations) + [(disk.current.value.current, true)]
      ensures !ok ==> disk.pending == old(disk.pending)
      ensures faults >= old(faults)
      ensures !ok && faults == old(faults) ==> old(disk.pending).value.Unreadable? || !HasApp(old(disk), old(disk.pending).value.state.current)
    {
      var works := Works();
      if !works || disk.pending.value.Unreadable? {
        return false;
      }
      var before := disk.pending.value.state;
      works := Works();
      if !works || !HasApp(disk, before.current) {
        return false;
      }
      ok := WriteState(before);
      if !ok {
        return;
      }
      ok := Activate(before.current);
      if !ok {
        return;
      }
      ok := RemoveRecord();
    }

    method RecoverUpgrade() returns (ok: bool)
      requires Valid()
      modifies this
      ensures Valid() && old(trail) <= trail && Steady(|old(trail)|, Settled(old(disk))) && Settled(disk) == Settled(old(disk))
      ensures disk.versions == old(disk.versions)
      ensures old(disk.pending).None? ==> disk == old(disk) && activations == old(activations)
      ensures ok ==> disk.pending.None? && disk.current.Some? && Runnable(disk, disk.current.value.current)
                     && (if old(disk.pending).None? then disk.current == old(disk.current)
                         else old(disk.pending) == Some(Before(disk.current.value))
                              && activations == old(activations) + [(disk.current.value.current, true)])
      ensures faults >= old(faults)
      ensures !ok && faults == old(faults) ==>
                || (old(disk.pending).Some? && old(disk.pending).value.Unreadable?)
                || Settled(old(disk)).None? || !HasApp(old(disk), Settled(old(disk)).value.current)
    {
      var clear := NoPending();
      if clear {
        var state := LoadState();
        var works := Works();
        return works && state.Some? && HasApp(disk, state.value.current);
      }
      if disk.pending.None? {
        return false; // the record could not be inspected, and it is not there to be read
      }
      ok := RecoverPending();
    }

    /** The checks made before anything is recorded. */
    method Admit(p: Package) returns (before: Option<State>)
      requires Valid()
      modifies this`faults
      ensures before.Some? ==> disk.pending.None? && disk.current == before && HasApp(disk, before.value.current) && Usable(p)
      ensures faults >= old(faults)
      ensures before.None? && faults == old(faults) ==> !Upgradable(disk, p)
    {
      var clear := NoPending();
      if !clear {
        return None;
      }
      before := LoadState();
      var works := Works();
      if before.None? || !works || !HasApp(disk, before.value.current) || !Usable(p) {
        return None;
      }
    }

    /** The part of an upgrade that runs under the record. */
    method Attempt(p: Package, before: State) returns (ok: bool)
      requires Valid() && disk.pending == Some(Before(before)) && disk.current == Some(before) && Usable(p)
      modifies this
      ensures Valid() && old(trail) <= trail && Steady(|old(trail)|, Some(before))
      ensures disk.pending == Some(Before(before))
      ensures ok ==> Installed(disk, Some(before), p) && Delivered(disk, p) && Succeeds(old(disk), disk, p.manifest.value.version)
                     && |activations| > 0 && activations[|activations| - 1] == (p.manifest.value.version, true)
      ensures faults >= old(faults) && (!ok && faults == old(faults) ==> !Providable(old(disk), p))
    {
      ghost var point;
      ok, point := InstallPackage(p, false);
      StagedIsSteady(this, |old(trail)|, before);
      if ok {
        ok := Activate(p.manifest.value.version);
      }
    }

    /** Removing the record is the commit point; `point` is where it sits on the trail. */
    method Commit() returns (ok: bool, ghost point: nat)
      requires Valid() && disk.pending.Some? && disk.pending.value.Before?
      modifies this
      ensures Valid() && old(trail) <= trail && |old(trail)| <= point <= |trail| && activations == old(activations)
      ensures !ok ==> point == |trail| && disk == old(disk) && faults > old(faults)
      ensures ok ==> point < |trail| && disk.pending.None? && disk.current == old(disk.current)
                     && Spares(old(disk).(pending := None), disk, {old(disk.current).value.current, old(disk.current).value.previous})
                     && (faults == old(faults) ==> Tidy(disk))
      ensures forall i | |old(trail)| <= i < point :: Keeps(trail[i], Settled(old(disk)))
      ensures Staged(point, |trail|, None, old(disk.current))
      ensures faults >= old(faults)
    {
      point := |trail|;
      ok := RemoveRecord();
      if !ok {
        point := |trail|;
        return;
      }
      var _ := Prune({disk.current.value.current, disk.current.value.previous});
    }

    method Upgrade(p: Package) returns (out: Outcome, ghost point: nat)
      requires Valid()
      modifies this
      ensures Valid() && old(trail) <= trail && |old(trail)| <= point <= |trail|
      ensures forall i | |old(trail)| <= i < point :: Keeps(trail[i], Settled(old(disk)))
      ensures point < |trail| <==> out == Upgraded
      ensures out != Upgraded ==> Settled(disk) == Settled(old(disk))
      ensures out == Upgraded ==>
                && Usable(p) && Staged(point, |trail|, None, Some(NextState(old(disk.current), p.manifest.value.version)))
                && disk.pending.None? && Installed(disk, old(disk.current), p)
                && Delivered(disk, p) && Succeeds(old(disk), disk, p.manifest.value.version)
                && old(disk.current).Some? && Runnable(old(disk), old(disk.current).value.current)
                && (faults == old(faults) ==> Tidy(disk))
                && |activations| > 0 && activations[|activations| - 1] == (p.manifest.value.version, true)
      ensures old(disk.pending).Some? ==> out == Refused
      ensures out == Refused ==> disk == old(disk) && activations == old(activations)
      ensures out == Restored ==> disk.pending.None? && disk.current == old(disk.current) && disk.current.Some?
                                  && Runnable(disk, disk.current.value.current)
                                  && |activations| > 0 && activations[|activations| - 1] == (disk.current.value.current, true)
      ensures out in {RecoveryPending, Unrecorded} ==> old(disk.current).Some? && disk.pending == Some(Before(old(disk.current).value))
      ensures faults >= old(faults) && (faults == old(faults) && Upgradable(old(disk), p) ==> out == Upgraded)
    {
      hide Safe, SoundState, Holds, NextState, Usable, Complete, Spares, Succeeds, Installed, Delivered, Tidy;
      var before := Admit(p);
      if before.None? {
        return Refused, |trail|;
      }
      var recorded := WriteRecord(before.value);
      if !recorded {
        return Refused, |trail|;
      }
      RecordingKeeps(old(disk), before.value, p);
      RecordingSucceeds(old(disk), before.value, p.manifest.value.version);
      var installed := Attempt(p, before.value);
      point := |trail|;
      if !installed {
        var restored := RecoverPending();
        return if restored then Restored else RecoveryPending, |trail|;
      }
      ghost var running := disk;
      var committed;
      committed, point := Commit();
      if !committed {
        return Unrecorded, point;
      }
      InstalledIsCurrent(running, before, p);
      CommittedHolds(running, disk, before, p);
      DeliveredStays(running, disk, p);
      CommitSucceeds(old(disk), running, disk, p.manifest.value.version);
      out := Upgraded;
    }
  }

  /** current.json is what installing `p` over `before` leads to, and the files are there. */
  predicate Installed(d: Disk, before: Option<State>, p: Package) {
    && p.manifest.Some?
    && var m := p.manifest.value;
       d.current == Some(NextState(before, m.version)) && m.version in d.versions && Holds(d.versions[m.version], m.files)
  }

  function Swapped(s: State): State {
    State(s.previous, s.current)
  }

  /** Nothing but a failing primitive or the package itself stops an installation. */
  predicate Providable(d: Disk, p: Package) {
    && p.manifest.Some?
    && var m := p.manifest.value;
       if m.version in d.versions then Holds(d.versions[m.version], m.files) else p.unpacksTo == m.files
  }

  predicate Upgradable(d: Disk, p: Package) {
    && d.pending.None? && d.current.Some? && HasApp(d, d.current.value.current)
    && Usable(p) && Providable(d, p)
  }

  /** An upgrade needs no more than that: no record, a current version whose program is there,
      the expected manifest and archive, and files as listed in the archive or already there. */
  lemma NothingElseStops(d: Disk, p: Package)
    ensures Upgradable(d, p) <==>
            && d.pending.None? && d.current.Some? && Runnable(d, d.current.value.current)
            && p.manifest.Some? && p.manifest.value.version != "" && p.payloadMatches
            && if p.manifest.value.version in d.versions then
                 (d.versions[p.manifest.value.version] + p.manifest.value.files) == d.versions[p.manifest.value.version]
               else p.unpacksTo == p.manifest.value.files
  {
    if p.manifest.Some? && p.manifest.value.version in d.versions {
      var have, want := d.versions[p.manifest.value.version], p.manifest.value.files;
      if have + want == have {
        forall path | path in want
          ensures path in have && have[path] == want[path]
        {
          assert path in (have + want) && (have + want)[path] == want[path];
        }
      }
      if Holds(have, want) {
        assert have + want == have;
      }
    }
  }

  lemma SparesItself(d: Disk, keep: set<string>)
    ensures Spares(d, d, keep)
  {
  }

  lemma SparedUntouched(before: Disk, after: Disk, keep: set<string>)
    requires Spares(before, after, keep)
    ensures after == before.(versions := after.versions) && after.versions.Keys <= before.versions.Keys
    ensures forall v | v in keep :: Untouched(before, after, v)
  {
  }

  lemma SparingTwice(first: Disk, second: Disk, third: Disk, keep: set<string>)
    requires Spares(first, second, keep) && Spares(second, third, keep)
    ensures Spares(first, third, keep)
  {
  }

  lemma SparingKeeps(before: Disk, after: Disk, keep: set<string>)
    requires Safe(before) && before.pending.None? && Covers(keep, before.current) && Spares(before, after, keep)
    ensures Phase(after, None, before.current)
  {
  }

  lemma PruningKeepsProvidable(before: Disk, after: Disk, keep: set<string>, p: Package)
    requires p.manifest.Some? && p.manifest.value.version in keep && Spares(before, after, keep)
    ensures Providable(before, p) == Providable(after, p)
  {
  }

  lemma RecordingKeeps(d: Disk, s: State, p: Package)
    requires Safe(d) && d.current == Some(s)
    ensures Keeps(d.(pending := Some(Before(s))), Some(s))
    ensures Providable(d.(pending := Some(Before(s))), p) == Providable(d, p)
  {
  }

  lemma RecordingSucceeds(d: Disk, s: State, version: string)
    ensures forall after :: Succeeds(d.(pending := Some(Before(s))), after, version) == Succeeds(d, after, version)
  {
  }

  lemma SwitchedHolds(before: Disk, after: Disk, s: Option<State>, p: Package)
    requires p.manifest.Some? && p.manifest.value.version in before.versions
    requires Holds(before.versions[p.manifest.value.version], p.manifest.value.files)
    requires var next := NextState(s, p.manifest.value.version);
             Spares(before.(current := Some(next), marker := true), after, {next.current, next.previous})
    ensures Installed(after, s, p)
  {
  }

  lemma InstalledIsDelivered(d: Disk, before: Option<State>, p: Package)
    requires Installed(d, before, p) && Usable(p)
    ensures Delivered(d, p)
  {
  }

  lemma DeliveredStays(before: Disk, after: Disk, p: Package)
    requires Delivered(before, p) && before.current.Some? && before.current.value.current == p.manifest.value.version
    requires Spares(before.(pending := None), after, {before.current.value.current, before.current.value.previous})
    ensures Delivered(after, p)
  {
  }

  lemma InstalledIsCurrent(d: Disk, before: Option<State>, p: Package)
    requires Installed(d, before, p)
    ensures d.current.Some? && d.current.value.current == p.manifest.value.version
  {
  }

  lemma SwitchSucceeds(before: Disk, pruned: Disk, provided: Disk, after: Disk, version: string, keep: set<string>)
    requires keep == {version} + if before.current.Some? then {before.current.value.current, before.current.value.previous} else {}
    requires Spares(before, pruned, keep) && Safe(before)
    requires forall v | v in pruned.versions :: v in provided.versions && provided.versions[v] == pruned.versions[v]
    requires provided.current == before.current
    requires var next := NextState(before.current, version);
             Spares(provided.(current := Some(next), marker := true), after, {next.current, next.previous})
    ensures Succeeds(before, after, version)
  {
  }

  lemma CommitSucceeds(before: Disk, running: Disk, after: Disk, version: string)
    requires Succeeds(before, running, version) && running.current.Some?
    requires Spares(running.(pending := None), after, {running.current.value.current, running.current.value.previous})
    ensures Succeeds(before, after, version)
  {
  }

  lemma CommittedHolds(before: Disk, after: Disk, s: Option<State>, p: Package)
    requires Installed(before, s, p)
    requires Spares(before.(pending := None), after, {before.current.value.current, before.current.value.previous})
    ensures Installed(after, s, p)
  {
  }

  lemma VerifyingKeeps(d: Disk, m: Manifest)
    requires Safe(d) && m.version != "" && m.version in d.versions && Holds(d.versions[m.version], m.files)
    ensures var after := d.(verified := d.verified[m.version := m.files]);
            Phase(after, d.pending, d.current) && Complete(after, m.version)
  {
  }

  lemma PlacingKeeps(d: Disk, m: Manifest)
    requires Safe(d) && m.version != "" && m.version !in d.versions
    ensures var after := d.(versions := d.versions[m.version := m.files], verified := d.verified[m.version := m.files]);
            Phase(after, d.pending, d.current) && Complete(after, m.version)
  {
  }

  lemma NextIsSound(d: Disk, before: Option<State>, version: string)
    requires Safe(d) && d.current == before && Complete(d, version)
    ensures SoundState(d, NextState(before, version))
    ensures before.None? ==> NextState(before, version) == State(version, "")
    ensures before.Some? && version != before.value.current ==> NextState(before, version) == State(version, before.value.current)
    ensures before.Some? && version == before.value.current ==> NextState(before, version) == before.value
  {
  }

  lemma StagedIsSteady(root: Root, from: nat, s: State)
    requires forall i | from <= i < |root.trail| :: Safe(root.trail[i]) && root.trail[i].pending == Some(Before(s))
    ensures root.Steady(from, Some(s))
  {
  }

  // ---- whole runs -----------------------------------------------------------------

  /** Every file the manifest of this version lists is in its directory as listed. */
  predicate Whole(d: Disk, version: string) {
    && version in d.versions && version in d.verified
    && forall path | path in d.verified[version] ::
         path in d.versions[version] && d.versions[version][path] == d.verified[version][path]
  }

  /** What it means for a disk to keep a state: a restart runs it, and its version, as well as
      the previous one if there is any, is another directory in which no file is missing. */
  lemma KeptMeans(d: Disk, s: Option<State>)
    requires Keeps(d, s)
    ensures s == if d.pending.Some? && d.pending.value.Before? then Some(d.pending.value.state) else d.current
    ensures forall state | s == Some(state) || d.current == Some(state) ::
              && state.current != "" && Whole(d, state.current) && state.previous != state.current
              && (state.previous != "" ==> Whole(d, state.previous))
  {
  }

  /** What a call sets out to do to the settled state. */
  datatype Aim = Nothing | Adopt(version: string) | Swap

  function Reached(aim: Aim, s: Option<State>): Option<State> {
    match aim
    case Nothing => s
    case Adopt(version) => Some(NextState(s, version))
    case Swap => if s.Some? then Some(Swapped(s.value)) else s
  }

  /** Adopting a version keeps the one that was current as the previous one; swapping
      exchanges the two. */
  lemma ReachedMeans(aim: Aim, s: State)
    ensures aim.Adopt? ==> Reached(aim, Some(s)) == Some(if aim.version == s.current then s else State(aim.version, s.current))
    ensures aim.Adopt? ==> Reached(aim, None) == Some(State(aim.version, ""))
    ensures aim.Swap? ==> Reached(aim, Some(s)) == Some(State(s.previous, s.current)) && Reached(aim, None) == None
    ensures aim.Nothing? ==> Reached(aim, Some(s)) == Some(s) && Reached(aim, None) == None
  {
  }

  /** The disks one call went through, the first being the one it found; from
      position `point` on its aim is reached. A crash cuts the list anywhere. */
  datatype Episode = Episode(disks: seq<Disk>, aim: Aim, point: nat)

  ghost predicate Contract(e: Episode) {
    && |e.disks| > 0 && 0 < e.point <= |e.disks|
    && (forall i | 0 <= i < e.point :: Keeps(e.disks[i], Settled(e.disks[0])))
    && (forall i | e.point <= i < |e.disks| :: Keeps(e.disks[i], Reached(e.aim, Settled(e.disks[0]))))
  }

  function CutAt(e: Episode, n: nat): Episode
    requires 0 < n <= |e.disks|
  {
    Episode(e.disks[..n], e.aim, if e.point <= n then e.point else n)
  }

  /** A crash at any point of any call leaves an episode that keeps the contract. */
  lemma CrashKeepsContract(e: Episode, n: nat)
    requires Contract(e) && 0 < n <= |e.disks|
    ensures Contract(CutAt(e, n))
  {
    assert e.disks[..n][0] == e.disks[0];
  }

  function LastDisk(e: Episode): Disk
    requires |e.disks| > 0
  {
    e.disks[|e.disks| - 1]
  }

  ghost predicate IsRun(run: seq<Episode>) {
    && (forall i | 0 <= i < |run| :: Contract(run[i]))
    && (forall i, j | 0 <= i < j < |run| && j == i + 1 :: run[j].disks[0] == LastDisk(run[i]))
  }

  /** The aims that were reached before their call ended or was cut, one after another. */
  function Outcomes(initial: Option<State>, run: seq<Episode>): Option<State> {
    if run == [] then initial
    else
      var e := run[|run| - 1];
      var before := Outcomes(initial, run[..|run| - 1]);
      if e.point < |e.disks| then Reached(e.aim, before) else before
  }

  /** Over any number of calls and crashes every disk names complete directories, and
      what a restart settles on is the result of exactly the calls that passed their
      switch point: an interrupted upgrade counts for nothing. */
  lemma {:induction false} RunsSettle(run: seq<Episode>)
    requires |run| > 0 && IsRun(run)
    ensures Keeps(LastDisk(run[|run| - 1]), Outcomes(Settled(run[0].disks[0]), run))
  {
    var e := run[|run| - 1];
    var earlier := run[..|run| - 1];
    assert Contract(e);
    if |run| > 1 {
      RunsSettle(earlier);
      assert earlier[|earlier| - 1] == run[|run| - 2];
      assert e.disks[0] == LastDisk(run[|run| - 2]);
    } else {
      assert Outcomes(Settled(run[0].disks[0]), earlier) == Settled(run[0].disks[0]);
    }
  }

  /** An upgrade can be taken back: over the same installation the version that ran before
      it runs again, from the same files. */
  method UpgradeThenRollback(root: Root, p: Package) returns (ok: bool)
    requires root.Valid()
    modifies root
    ensures root.Valid()
    ensures root.faults == old(root.faults) && Upgradable(old(root.disk), p) ==>
              (ok <==> p.manifest.value.version != old(root.disk.current).value.current)
    ensures ok ==>
              && old(root.disk.current).Some? && p.manifest.Some?
              && var s := old(root.disk.current).value;
                 root.disk.current == Some(State(s.current, p.manifest.value.version)) && Untouched(old(root.disk), root.disk, s.current)
  {
    var s := root.disk.current;
    var out;
    ghost var point;
    out, point := root.Upgrade(p);
    if out != Upgraded || s.None? || p.manifest.value.version == s.value.current {
      return false;
    }
    ok := root.Rollback();
  }

  // The methods prove the contract that runs are built from.

  method CheckedInstall(root: Root, p: Package) returns (ghost e: Episode)
    requires root.Valid()
    modifies root
    ensures root.Valid() && Contract(e) && e.disks[0] == old(root.disk) && LastDisk(e) == root.disk
    ensures p.manifest.Some? ==> e.aim == Adopt(p.manifest.value.version)
  {
    ghost var n, first := |root.trail|, root.disk;
    ghost var point;
    var ok;
    ok, point := root.Install(p);
    e := Episode([first] + root.trail[n..], if p.manifest.Some? then Adopt(p.manifest.value.version) else Nothing, point - n + 1);
  }

  method CheckedUpgrade(root: Root, p: Package) returns (out: Outcome, ghost e: Episode)
    requires root.Valid()
    modifies root
    ensures root.Valid() && Contract(e) && e.disks[0] == old(root.disk) && LastDisk(e) == root.disk
    ensures p.manifest.Some? ==> e.aim == Adopt(p.manifest.value.version)
    ensures e.point < |e.disks| <==> out == Upgraded
  {
    ghost var n, first := |root.trail|, root.disk;
    ghost var point;
    out, point := root.Upgrade(p);
    e := Episode([first] + root.trail[n..], if p.manifest.Some? then Adopt(p.manifest.value.version) else Nothing, point - n + 1);
  }

  method CheckedRollback(root: Root) returns (ok: bool, ghost e: Episode)
    requires root.Valid()
    modifies root
    ensures root.Valid() && Contract(e) && e.disks[0] == old(root.disk) && LastDisk(e) == root.disk
    ensures e.aim == Swap && (ok ==> e.point < |e.disks|)
  {
    ghost var n, first := |root.trail|, root.disk;
    ok := root.Rollback();
    e := Episode([first] + root.trail[n..], Swap, if ok then 1 else 1 + |root.trail| - n);
    assert forall i | 1 <= i < |e.disks| :: e.disks[i] == root.trail[n + i - 1];
  }

  method CheckedRecover(root: Root) returns (ok: bool, ghost e: Episode)
    requires root.Valid()
    modifies root
    ensures root.Valid() && Contract(e) && e.disks[0] == old(root.disk) && LastDisk(e) == root.disk && e.aim == Nothing
  {
    ghost var n, first := |root.trail|, root.disk;
    ok := root.RecoverUpgrade();
    e := Episode([first] + root.trail[n..], Nothing, 1 + |root.trail| - n);
  }
}
