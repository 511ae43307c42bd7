/** Re-keying a legacy candidate from its discovered Device IDs to identity-bound ones. */
module LegacyBinding {
  import opened Common
  import opened Identity
  import ShellBinding
  import opened Snapshots

  const OWNER_CONTROLLER := "owner-controller"
  const MAX_BINDINGS := 1024

  datatype DeviceBinding = DeviceBinding(legacy: string, device: string, key: Key)

  predicate BindingOK(b: DeviceBinding) {
    !Blank(b.legacy) && !Blank(b.device) && ValidKey(b.key) && DeviceID(b.key) == b.device
  }

  predicate Distinct(bindings: seq<DeviceBinding>) {
    forall i, j | 0 <= i < j < |bindings| :: bindings[i].legacy != bindings[j].legacy && bindings[i].device != bindings[j].device
  }

  predicate ValidBindings(bindings: seq<DeviceBinding>) {
    && 0 < |bindings| <= MAX_BINDINGS
    && (forall b | b in bindings :: BindingOK(b))
    && Distinct(bindings)
  }

  /** One to 1024 bindings, each of a legacy ID to the ID of its key, no ID on either side
      bound twice. */
  lemma BindingsMean(bindings: seq<DeviceBinding>)
    ensures ValidBindings(bindings) <==>
            && 1 <= |bindings| <= 1024
            && (forall i | 0 <= i < |bindings| ::
                  HasText(bindings[i].legacy) && ValidKey(bindings[i].key) && bindings[i].device == "device-" + bindings[i].key)
            && forall i, j | 0 <= i < j < |bindings| ::
                 bindings[i].legacy != bindings[j].legacy && bindings[i].key != bindings[j].key
  {
    hide BindingOK, ValidKey, HasText, DeviceID;
    forall i | 0 <= i < |bindings|
      ensures bindings[i] in bindings
      ensures BindingOK(bindings[i]) <==>
              HasText(bindings[i].legacy) && ValidKey(bindings[i].key) && bindings[i].device == "device-" + bindings[i].key
    {
      BindingMeans(bindings[i]);
    }
    forall i, j | 0 <= i < j < |bindings| && BindingOK(bindings[i]) && BindingOK(bindings[j])
      ensures bindings[i].device == bindings[j].device <==> bindings[i].key == bindings[j].key
    {
      SameKeySameDevice(bindings[i], bindings[j]);
    }
  }

  lemma BindingMeans(b: DeviceBinding)
    ensures BindingOK(b) <==> HasText(b.legacy) && ValidKey(b.key) && b.device == "device-" + b.key
  {
    hide ValidKey, Blank, HasText;
    BlankMeans(b.legacy);
    BlankMeans(b.device);
    LettersAreText(b.key);
  }

  lemma SameKeySameDevice(a: DeviceBinding, b: DeviceBinding)
    requires BindingOK(a) && BindingOK(b)
    ensures a.device == b.device <==> a.key == b.key
  {
    hide ValidKey, Blank;
    if a.device == b.device {
      DeviceIDInjective(a.key, b.key);
    }
  }

  lemma LettersAreText(key: Key)
    ensures HasText("device-" + key)
  {
    assert ("device-" + key)[0] == 'd' && !WhiteSpace(("device-" + key)[0] as int);
  }

  method ValidateBindings(bindings: seq<DeviceBinding>) returns (ok: bool)
    ensures ok <==> ValidBindings(bindings)
  {
    if |bindings| == 0 || |bindings| > MAX_BINDINGS {
      return false;
    }
    var legacyIDs: set<string>, deviceIDs: set<string> := {}, {};
    for i := 0 to |bindings|
      invariant (forall b | b in bindings[..i] :: BindingOK(b)) && Distinct(bindings[..i])
      invariant legacyIDs == set b | b in bindings[..i] :: b.legacy
      invariant deviceIDs == set b | b in bindings[..i] :: b.device
    {
      var binding := bindings[i];
      assert binding in bindings && bindings[..i + 1] == bindings[..i] + [binding];
      if Blank(binding.legacy) || Blank(binding.device) || !ValidKey(binding.key) || DeviceID(binding.key) != binding.device {
        return false;
      }
      if binding.legacy in legacyIDs {
        var earlier :| earlier in bindings[..i] && earlier.legacy == binding.legacy;
        return false;
      }
      if binding.device in deviceIDs {
        var earlier :| earlier in bindings[..i] && earlier.device == binding.device;
        return false;
      }
      legacyIDs, deviceIDs := legacyIDs + {binding.legacy}, deviceIDs + {binding.device};
    }
    assert bindings[..|bindings|] == bindings;
    ok := true;
  }

  // ---- the renaming -----------------------------------------------------------------

  /** Bindings by legacy Device ID. */
  type Names = map<string, DeviceBinding>

  function ByLegacy(bindings: seq<DeviceBinding>): Names {
    if bindings == [] then map[]
    else ByLegacy(bindings[..|bindings| - 1])[bindings[|bindings| - 1].legacy := bindings[|bindings| - 1]]
  }

  /** A map from distinct legacy IDs to distinct identity-bound IDs. */
  predicate ValidNames(names: Names) {
    && (forall id | id in names :: names[id].legacy == id && BindingOK(names[id]))
    && (forall a, b | a in names && b in names && a != b :: names[a].device != names[b].device)
  }

  lemma {:induction false} ByLegacyFinds(bindings: seq<DeviceBinding>)
    requires ValidBindings(bindings) || bindings == []
    ensures ValidNames(ByLegacy(bindings))
    ensures forall b :: b in bindings <==> b.legacy in ByLegacy(bindings) && ByLegacy(bindings)[b.legacy] == b
  {
    if bindings != [] {
      var init, last := bindings[..|bindings| - 1], bindings[|bindings| - 1];
      assert bindings == init + [last];
      ByLegacyFinds(init);
    }
  }

  function Renamed(names: Names, id: string): string {
    if id in names then names[id].device else id
  }

  /** The Device a list shows under an ID: the last one, if IDs repeat. */
  function Index(devices: seq<Device>): map<string, Device> {
    if devices == [] then map[]
    else Index(devices[..|devices| - 1])[devices[|devices| - 1].id := devices[|devices| - 1]]
  }

  lemma {:induction false} IndexFinds(devices: seq<Device>)
    ensures forall id | id in Index(devices) :: Index(devices)[id].id == id && Index(devices)[id] in devices
    ensures forall d | d in devices :: d.id in Index(devices)
    ensures UniqueDevices(devices) ==> forall d | d in devices :: Index(devices)[d.id] == d
  {
    if devices != [] {
      var init, last := devices[..|devices| - 1], devices[|devices| - 1];
      assert devices == init + [last];
      IndexFinds(init);
    }
  }

  predicate Unused(s: Snapshot, id: string) {
    forall c | c in s.capabilities :: c.device != id
  }

  /** An unused owner-controller, in whose place a bound Device may come. */
  predicate Replaceable(s: Snapshot, names: Names, d: Device) {
    d.id !in names && d.alias == OWNER_CONTROLLER && Unused(s, d.id)
  }

  /** The identity of some other Device's binding is this ID. */
  predicate Takes(names: Names, id: string) {
    exists legacy | legacy in names :: legacy != id && names[legacy].device == id
  }

  /** Every binding names a known Device, and an identity that already belongs to
      another Device belongs to a replaceable one. */
  predicate Applicable(s: Snapshot, names: Names) {
    && names.Keys <= Index(s.devices).Keys
    && forall id | id in Index(s.devices) && Takes(names, id) :: Replaceable(s, names, Index(s.devices)[id])
  }

  function Bound(names: Names, d: Device): Device {
    if d.id in names then d.(id := names[d.id].device, key := names[d.id].key) else d
  }

  function Moved(names: Names, c: Capability): Capability {
    if c.device in names then c.(device := names[c.device].device, binding := None) else c
  }

  function Regranted(names: Names, g: Grant): Grant {
    g.(subject := Renamed(names, g.subject))
  }

  function Kept(names: Names, devices: seq<Device>): seq<Device> {
    if devices == [] then []
    else
      var last := devices[|devices| - 1];
      Kept(names, devices[..|devices| - 1]) + if Takes(names, last.id) then [] else [last]
  }

  predicate AllBound(names: Names, from: seq<Device>, to: seq<Device>) {
    |to| == |from| && forall i | 0 <= i < |from| :: to[i] == Bound(names, from[i])
  }

  predicate AllMoved(names: Names, from: seq<Capability>, to: seq<Capability>) {
    |to| == |from| && forall i | 0 <= i < |from| :: to[i] == Moved(names, from[i])
  }

  predicate AllRegranted(names: Names, from: seq<Grant>, to: seq<Grant>) {
    |to| == |from| && forall i | 0 <= i < |from| :: to[i] == Regranted(names, from[i])
  }

  /** `t` is `s` under its new names: Devices whose identity is taken are dropped,
      everything else is renamed where it stands. */
  predicate Rekeyed(s: Snapshot, names: Names, t: Snapshot) {
    && t == s.(devices := t.devices, capabilities := t.capabilities, grants := t.grants)
    && AllBound(names, Kept(names, s.devices), t.devices)
    && AllMoved(names, s.capabilities, t.capabilities)
    && AllRegranted(names, s.grants, t.grants)
  }

  lemma {:induction false} KeptOnly(names: Names, devices: seq<Device>)
    ensures forall d :: d in Kept(names, devices) <==> d in devices && !Takes(names, d.id)
    ensures UniqueDevices(devices) ==> UniqueDevices(Kept(names, devices))
  {
    if devices != [] {
      var init, last := devices[..|devices| - 1], devices[|devices| - 1];
      assert devices == init + [last];
      KeptOnly(names, init);
    }
  }

  lemma RenamingInjective(names: Names, a: string, b: string)
    requires ValidNames(names) && a != b && !Takes(names, a) && !Takes(names, b)
    ensures Renamed(names, a) != Renamed(names, b)
  {
  }

  /** A bound Device is never itself dropped. */
  lemma BoundAreKept(s: Snapshot, names: Names, legacy: string)
    requires Applicable(s, names) && legacy in names
    ensures !Takes(names, legacy) && HasDevice(s.devices, legacy)
  {
    IndexFinds(s.devices);
    assert legacy in Index(s.devices).Keys;
    if Takes(names, legacy) {
      assert false;
    }
    assert Index(s.devices)[legacy] in s.devices;
  }

  lemma KeptUnderNewName(s: Snapshot, names: Names, t: Snapshot, id: string)
    requires Rekeyed(s, names, t) && HasDevice(s.devices, id) && !Takes(names, id)
    ensures HasDevice(t.devices, Renamed(names, id))
  {
    KeptOnly(names, s.devices);
    var d :| d in s.devices && d.id == id;
    var kept := Kept(names, s.devices);
    var k :| 0 <= k < |kept| && kept[k] == d;
    assert t.devices[k] == Bound(names, d) && t.devices[k] in t.devices;
  }

  /** A reference to any Device still finds one under the new name. */
  lemma ReferencesSurvive(s: Snapshot, names: Names, t: Snapshot, id: string)
    requires Applicable(s, names) && Rekeyed(s, names, t) && HasDevice(s.devices, id)
    ensures HasDevice(t.devices, Renamed(names, id))
  {
    if Takes(names, id) {
      var legacy :| legacy in names && legacy != id && names[legacy].device == id;
      IndexFinds(s.devices);
      assert Replaceable(s, names, Index(s.devices)[id]);
      BoundAreKept(s, names, legacy);
      KeptUnderNewName(s, names, t, legacy);
    } else {
      KeptUnderNewName(s, names, t, id);
    }
  }

  /** Which Device of the candidate a Device of the result is. */
  predicate Becomes(names: Names, d: Device, e: Device) {
    !Takes(names, d.id) && e == Bound(names, d)
  }

  /** Accepted bindings rename one to one: every Device of the result is exactly one of
      the candidate's, every Device of the candidate is one of the result, unless it is
      an owner-controller without Capabilities whose identity a bound Device takes over. */
  lemma RenamesOneToOne(s: Snapshot, names: Names, t: Snapshot)
    requires Valid(s) && ValidNames(names) && Applicable(s, names) && Rekeyed(s, names, t)
    ensures forall e | e in t.devices :: exists d | d in s.devices :: Becomes(names, d, e)
    ensures forall d | d in s.devices ::
              if Takes(names, d.id) then Replaceable(s, names, d) else exists e | e in t.devices :: Becomes(names, d, e)
    ensures forall c, d | c in s.devices && d in s.devices && !Takes(names, c.id) && !Takes(names, d.id) && c != d ::
              Renamed(names, c.id) != Renamed(names, d.id)
    ensures forall d | d in s.devices && Takes(names, d.id) ::
              exists legacy :: HasDevice(s.devices, legacy) && !Takes(names, legacy) && Renamed(names, legacy) == d.id
  {
    hide ValidCapabilities, ValidGrants, ValidHeader, Replaceable, ValidNames, Takes, Unused;
    KeptOnly(names, s.devices);
    IndexFinds(s.devices);
    var kept := Kept(names, s.devices);
    forall e | e in t.devices
      ensures exists d | d in s.devices :: Becomes(names, d, e)
    {
      var k :| 0 <= k < |t.devices| && t.devices[k] == e;
      assert kept[k] in kept;
      assert Becomes(names, kept[k], e);
    }
    forall d | d in s.devices && !Takes(names, d.id)
      ensures exists e | e in t.devices :: Becomes(names, d, e)
    {
      var k :| 0 <= k < |kept| && kept[k] == d;
      assert t.devices[k] in t.devices && Becomes(names, d, t.devices[k]);
    }
    forall c, d | c in s.devices && d in s.devices && !Takes(names, c.id) && !Takes(names, d.id) && c != d
      ensures Renamed(names, c.id) != Renamed(names, d.id)
    {
      RenamingInjective(names, c.id, d.id);
    }
    forall d | d in s.devices && Takes(names, d.id)
      ensures exists legacy :: HasDevice(s.devices, legacy) && !Takes(names, legacy) && Renamed(names, legacy) == d.id
    {
      var legacy := TakenBy(s, names, d.id);
    }
  }

  lemma TakenBy(s: Snapshot, names: Names, id: string) returns (legacy: string)
    requires Applicable(s, names) && Takes(names, id)
    ensures HasDevice(s.devices, legacy) && !Takes(names, legacy) && Renamed(names, legacy) == id
  {
    legacy :| legacy in names && legacy != id && names[legacy].device == id;
    BoundAreKept(s, names, legacy);
  }

  // ---- what that means binding by binding ---------------------------------------------------

  predicate SameCapabilityBut(c: Capability, m: Capability) {
    && m.id == c.id && m.alias == c.alias && m.previousAliases == c.previousAliases && m.displayName == c.displayName
    && m.kind == c.kind && m.state == c.state && m.features == c.features && m.profile == c.profile
  }

  predicate SameDeviceBut(d: Device, e: Device) {
    && e.alias == d.alias && e.previousAliases == d.previousAliases && e.displayName == d.displayName && e.state == d.state
  }

  predicate SameGrantBut(g: Grant, h: Grant) {
    h.id == g.id && h.capability == g.capability && h.state == g.state && h.validUntil == g.validUntil
  }

  /** A Device as it was, or under the identity and key of the binding for its legacy ID. */
  predicate TakesIdentity(bindings: seq<DeviceBinding>, d: Device, e: Device) {
    && SameDeviceBut(d, e)
    && (forall b | b in bindings && b.legacy == d.id :: e.id == b.device && e.key == b.key)
    && ((forall b | b in bindings :: b.legacy != d.id) ==> e == d)
  }

  predicate MovesAlong(bindings: seq<DeviceBinding>, c: Capability, m: Capability) {
    && SameCapabilityBut(c, m)
    && (forall b | b in bindings && b.legacy == c.device :: m.device == b.device && m.binding.None?)
    && ((forall b | b in bindings :: b.legacy != c.device) ==> m.device == c.device && m.binding == c.binding)
  }

  predicate KeepsSubject(bindings: seq<DeviceBinding>, g: Grant, h: Grant) {
    && SameGrantBut(g, h)
    && (forall b | b in bindings && b.legacy == g.subject :: h.subject == b.device)
    && ((forall b | b in bindings :: b.legacy != g.subject) ==> h.subject == g.subject)
  }

  /** The identity of some other Device's binding is this ID. */
  predicate TakenAway(bindings: seq<DeviceBinding>, id: string) {
    exists b | b in bindings :: b.device == id && b.legacy != id
  }

  /** The Devices of `to` are those at these rising positions of `from`, each under its own or
      its bound identity, namely all those whose identity nobody takes away. */
  predicate StayInOrder(bindings: seq<DeviceBinding>, from: seq<Device>, to: seq<Device>, at: seq<nat>) {
    && |at| == |to| && (forall k | 0 <= k < |at| :: at[k] < |from| && TakesIdentity(bindings, from[at[k]], to[k]))
    && (forall j, k | 0 <= j < k < |at| :: at[j] < at[k])
    && (forall i | 0 <= i < |from| :: i in at <==> !TakenAway(bindings, from[i].id))
  }

  lemma NamesAre(bindings: seq<DeviceBinding>, id: string)
    requires ValidBindings(bindings)
    ensures forall b | b in bindings && b.legacy == id :: id in ByLegacy(bindings) && ByLegacy(bindings)[id] == b
    ensures id in ByLegacy(bindings) ==> ByLegacy(bindings)[id] in bindings && ByLegacy(bindings)[id].legacy == id
    ensures Takes(ByLegacy(bindings), id) <==> TakenAway(bindings, id)
  {
    hide BindingOK, Distinct;
    ByLegacyFinds(bindings);
    var names := ByLegacy(bindings);
    if TakenAway(bindings, id) {
      var b :| b in bindings && b.device == id && b.legacy != id;
      assert b.legacy in names && names[b.legacy] == b;
    }
  }

  /** What re-keying does, in terms of the bindings: Capabilities and grants stay in place and
      only follow their Device; a Device whose identity is taken away goes, every other one
      stays, in the same order, and only a bound one changes its ID and its key. */
  lemma RekeyedMeans(s: Snapshot, bindings: seq<DeviceBinding>, t: Snapshot)
    requires ValidBindings(bindings) && Rekeyed(s, ByLegacy(bindings), t)
    ensures t.schema == s.schema && t.fabric == s.fabric && t.directoryVersion == s.directoryVersion
    ensures t.grantVersion == s.grantVersion && t.capturedAt == s.capturedAt
    ensures |t.capabilities| == |s.capabilities| && forall i | 0 <= i < |s.capabilities| :: MovesAlong(bindings, s.capabilities[i], t.capabilities[i])
    ensures |t.grants| == |s.grants| && forall i | 0 <= i < |s.grants| :: KeepsSubject(bindings, s.grants[i], t.grants[i])
    ensures exists at :: StayInOrder(bindings, s.devices, t.devices, at)
  {
    hide Takes, TakenAway, TakesIdentity, ValidBindings, ByLegacy, MovesAlong, KeepsSubject, Moved, Regranted, Bound;
    var names := ByLegacy(bindings);
    forall i | 0 <= i < |s.capabilities|
      ensures MovesAlong(bindings, s.capabilities[i], t.capabilities[i])
    {
      MovedAlong(bindings, s.capabilities[i]);
    }
    forall i | 0 <= i < |s.grants|
      ensures KeepsSubject(bindings, s.grants[i], t.grants[i])
    {
      RegrantedTo(bindings, s.grants[i]);
    }
    var at := KeptAt(names, s.devices);
    forall k | 0 <= k < |at|
      ensures TakesIdentity(bindings, s.devices[at[k]], t.devices[k])
    {
      BoundTo(bindings, s.devices[at[k]]);
    }
    forall i | 0 <= i < |s.devices|
      ensures i in at <==> !TakenAway(bindings, s.devices[i].id)
    {
      NamesAre(bindings, s.devices[i].id);
    }
    assert StayInOrder(bindings, s.devices, t.devices, at);
  }

  lemma MovedAlong(bindings: seq<DeviceBinding>, c: Capability)
    requires ValidBindings(bindings)
    ensures MovesAlong(bindings, c, Moved(ByLegacy(bindings), c))
  {
    hide ValidBindings, ByLegacy;
    NamesAre(bindings, c.device);
  }

  lemma RegrantedTo(bindings: seq<DeviceBinding>, g: Grant)
    requires ValidBindings(bindings)
    ensures KeepsSubject(bindings, g, Regranted(ByLegacy(bindings), g))
  {
    hide ValidBindings, ByLegacy;
    NamesAre(bindings, g.subject);
  }

  lemma BoundTo(bindings: seq<DeviceBinding>, d: Device)
    requires ValidBindings(bindings)
    ensures TakesIdentity(bindings, d, Bound(ByLegacy(bindings), d))
  {
    hide ValidBindings, ByLegacy;
    NamesAre(bindings, d.id);
  }

  /** `kept` are the entries of `devices` at these rising positions, namely all those whose
      identity nobody takes. */
  predicate KeptFrom(names: Names, devices: seq<Device>, kept: seq<Device>, at: seq<nat>) {
    && |at| == |kept|
    && (forall k | 0 <= k < |at| :: at[k] < |devices| && kept[k] == devices[at[k]])
    && (forall j, k | 0 <= j < k < |at| :: at[j] < at[k])
    && (forall i | 0 <= i < |devices| :: i in at <==> !Takes(names, devices[i].id))
  }

  lemma KeepsOneMore(names: Names, init: seq<Device>, d: Device, kept: seq<Device>, at: seq<nat>)
    requires KeptFrom(names, init, kept, at) && !Takes(names, d.id)
    ensures KeptFrom(names, init + [d], kept + [d], at + [|init|])
  {
    hide Takes;
    var longer, all := at + [|init|], init + [d];
    forall i | 0 <= i < |all|
      ensures i in longer <==> !Takes(names, all[i].id)
    {
      assert i < |init| ==> all[i] == init[i];
    }
  }

  lemma DropsOneMore(names: Names, init: seq<Device>, d: Device, kept: seq<Device>, at: seq<nat>)
    requires KeptFrom(names, init, kept, at) && Takes(names, d.id)
    ensures KeptFrom(names, init + [d], kept, at)
  {
    hide Takes;
    var all := init + [d];
    forall i | 0 <= i < |all|
      ensures i in at <==> !Takes(names, all[i].id)
    {
      assert i < |init| ==> all[i] == init[i];
    }
  }

  lemma {:induction false} KeptAt(names: Names, devices: seq<Device>) returns (at: seq<nat>)
    ensures KeptFrom(names, devices, Kept(names, devices), at)
  {
    hide Takes, KeptFrom;
    if devices == [] {
      at := [];
      NothingKept(names);
    } else {
      var init, last := devices[..|devices| - 1], devices[|devices| - 1];
      at := KeptAt(names, init);
      assert devices == init + [last];
      if Takes(names, last.id) {
        DropsOneMore(names, init, last, Kept(names, init), at);
        assert Kept(names, devices) == Kept(names, init);
      } else {
        KeepsOneMore(names, init, last, Kept(names, init), at);
        assert Kept(names, devices) == Kept(names, init) + [last];
        at := at + [|init|];
      }
    }
  }

  lemma NothingKept(names: Names)
    ensures KeptFrom(names, [], [], [])
  {
  }

  /** Which bindings a valid candidate accepts: each names one of its Devices, and an identity
      that is already another Device's belongs to an owner-controller that no binding names
      and no Capability is on. */
  lemma ApplicableMeans(s: Snapshot, bindings: seq<DeviceBinding>)
    requires ValidBindings(bindings) && UniqueDevices(s.devices)
    ensures Applicable(s, ByLegacy(bindings)) <==>
            && (forall b | b in bindings :: HasDevice(s.devices, b.legacy))
            && forall b, d | b in bindings && d in s.devices && b.device == d.id && b.legacy != d.id ::
                 && d.alias == "owner-controller"
                 && (forall c | c in s.capabilities :: c.device != d.id)
                 && forall other | other in bindings :: other.legacy != d.id
  {
    hide ValidBindings, ByLegacy, Index, Takes;
    var names := ByLegacy(bindings);
    IndexFinds(s.devices);
    forall b | b in bindings
      ensures b.legacy in names && (b.legacy in Index(s.devices) <==> HasDevice(s.devices, b.legacy))
    {
      NamesAre(bindings, b.legacy);
    }
    forall id | id in names
      ensures names[id] in bindings && names[id].legacy == id
    {
      NamesAre(bindings, id);
    }
    forall d | d in s.devices
      ensures Index(s.devices)[d.id] == d
      ensures Replaceable(s, names, d) <==>
              && d.alias == "owner-controller" && (forall c | c in s.capabilities :: c.device != d.id)
              && forall other | other in bindings :: other.legacy != d.id
      ensures Takes(names, d.id) <==> exists b | b in bindings :: b.device == d.id && b.legacy != d.id
    {
      NamesAre(bindings, d.id);
    }
  }

  lemma DevicesStayValid(s: Snapshot, names: Names, t: Snapshot)
    requires Valid(s) && ValidNames(names) && Rekeyed(s, names, t)
    ensures ValidDevices(t.devices)
  {
    hide Applicable, ValidCapabilities, ValidGrants;
    KeptOnly(names, s.devices);
    var kept := Kept(names, s.devices);
    forall i, j | 0 <= i < j < |t.devices|
      ensures t.devices[i].id != t.devices[j].id
    {
      assert kept[i] in kept && kept[j] in kept;
      RenamingInjective(names, kept[i].id, kept[j].id);
    }
    forall d | d in t.devices
      ensures ValidDevice(d)
    {
      var i :| 0 <= i < |kept| && d == Bound(names, kept[i]);
      assert kept[i] in kept && kept[i] in s.devices;
      if kept[i].id in names {
        DeviceIDsAreIdentifiers(names[kept[i].id].key);
      }
    }
  }

  /** A Capability that keeps its binding keeps exactly the Device it was made for. */
  lemma BindingStays(s: Snapshot, names: Names, c: Capability, d: Device)
    requires Valid(s) && Applicable(s, names)
    requires c in s.capabilities && d in s.devices && !Takes(names, d.id)
    requires Bound(names, d).id == Moved(names, c).device
    ensures BindingHolds(Moved(names, c), Bound(names, d), s.fabric)
  {
    hide ShellBinding.Verify;
    if c.device !in names && d.id in names {
      var owner :| owner in s.devices && owner.id == c.device;
      IndexFinds(s.devices);
      assert false;
    }
  }

  lemma CapabilityStays(s: Snapshot, names: Names, t: Snapshot, c: Capability)
    requires Valid(s) && ValidNames(names) && Applicable(s, names) && Rekeyed(s, names, t) && c in s.capabilities
    ensures ValidCapability(Moved(names, c)) && HasDevice(t.devices, Moved(names, c).device)
  {
    hide ValidProfile, ValidDevices, ValidGrants, Applicable, Rekeyed, ShellBinding.Verify;
    ReferencesSurvive(s, names, t, c.device);
  }

  lemma BindingsStay(s: Snapshot, names: Names, t: Snapshot, c: Capability, d: Device)
    requires Valid(s) && Applicable(s, names) && Rekeyed(s, names, t)
    requires c in s.capabilities && d in t.devices && d.id == Moved(names, c).device
    ensures BindingHolds(Moved(names, c), d, t.fabric)
  {
    hide Valid, Applicable, BindingHolds, Moved;
    KeptOnly(names, s.devices);
    var kept := Kept(names, s.devices);
    var k :| 0 <= k < |kept| && t.devices[k] == d;
    assert kept[k] in kept;
    BindingStays(s, names, c, kept[k]);
  }

  lemma CapabilitiesStayValid(s: Snapshot, names: Names, t: Snapshot)
    requires Valid(s) && ValidNames(names) && Applicable(s, names) && Rekeyed(s, names, t)
    ensures ValidCapabilities(t.capabilities, t.devices, t.fabric)
  {
    hide Valid, ValidNames, Applicable, ValidCapability, HasDevice, BindingHolds, Moved;
    assert UniqueCapabilities(t.capabilities) by {
      CapabilityIDsStay(s, names, t);
    }
    forall i | 0 <= i < |t.capabilities|
      ensures ValidCapability(t.capabilities[i]) && HasDevice(t.devices, t.capabilities[i].device)
      ensures forall d | d in t.devices && d.id == t.capabilities[i].device :: BindingHolds(t.capabilities[i], d, t.fabric)
    {
      assert s.capabilities[i] in s.capabilities;
      CapabilityStays(s, names, t, s.capabilities[i]);
      forall d | d in t.devices && d.id == t.capabilities[i].device
        ensures BindingHolds(t.capabilities[i], d, t.fabric)
      {
        BindingsStay(s, names, t, s.capabilities[i], d);
      }
    }
  }

  lemma CapabilityIDsStay(s: Snapshot, names: Names, t: Snapshot)
    requires Valid(s) && AllMoved(names, s.capabilities, t.capabilities)
    ensures UniqueCapabilities(t.capabilities)
  {
    assert forall i | 0 <= i < |s.capabilities| :: t.capabilities[i].id == s.capabilities[i].id;
  }

  lemma GrantsStayValid(s: Snapshot, names: Names, t: Snapshot)
    requires Valid(s) && Applicable(s, names) && Rekeyed(s, names, t)
    ensures ValidGrants(t.grants, t.devices, t.capabilities)
  {
    hide Applicable, ValidHeader, ValidDevices, ValidCapabilities, ValidGrant, Kept, AllBound;
    forall i | 0 <= i < |t.grants|
      ensures ValidGrant(t.grants[i]) && HasDevice(t.devices, t.grants[i].subject)
              && HasCapability(t.capabilities, t.grants[i].capability)
    {
      assert s.grants[i] in s.grants;
      GrantStays(s.grants[i], names);
      ReferencesSurvive(s, names, t, s.grants[i].subject);
      var k :| 0 <= k < |s.capabilities| && s.capabilities[k].id == s.grants[i].capability;
      assert t.capabilities[k] in t.capabilities && t.capabilities[k].id == t.grants[i].capability;
    }
  }

  lemma GrantStays(g: Grant, names: Names)
    ensures ValidGrant(Regranted(names, g)) == ValidGrant(g)
  {
  }

  /** Applying accepted bindings to a valid candidate never breaks its validity. */
  lemma RekeyingKeepsValidity(s: Snapshot, names: Names, t: Snapshot)
    requires Valid(s) && ValidNames(names) && Applicable(s, names) && Rekeyed(s, names, t)
    ensures Valid(t)
  {
    DevicesStayValid(s, names, t);
    CapabilitiesStayValid(s, names, t);
    GrantsStayValid(s, names, t);
  }

  // ---- re-keying the route tables ------------------------------------------------------

  function TargetOf(s: Snapshot, c: Capability): Target {
    Target(s.fabric, c.device, c.id)
  }

  /** The candidate's own targets. */
  predicate Own(s: Snapshot, target: Target) {
    exists c | c in s.capabilities :: TargetOf(s, c) == target
  }

  /** From each moved Capability's old target to its new one. */
  predicate TargetNames(s: Snapshot, names: Names, targets: map<Target, Target>) {
    && (forall c | c in s.capabilities && c.device in names :: TargetOf(s, c) in targets)
    && (forall k | k in targets :: Own(s, k) && k.device in names && targets[k] == k.(device := names[k.device].device))
  }

  function NewTarget(targets: map<Target, Target>, target: Target): Target {
    if target in targets then targets[target] else target
  }

  /** Each entry is found under its new target, and nothing else is; where two
      entries meet, either one may win. */
  predicate RekeyedTable<V(==)>(table: map<Target, V>, targets: map<Target, Target>, result: map<Target, V>) {
    && (forall k | k in table :: NewTarget(targets, k) in result)
    && (forall r | r in result :: exists k | k in table :: NewTarget(targets, k) == r && table[k] == result[r])
  }

  method RekeyTable<V(==)>(table: map<Target, V>, targets: map<Target, Target>) returns (result: map<Target, V>)
    ensures RekeyedTable(table, targets, result)
  {
    result := map[];
    var remaining := table.Keys;
    while remaining != {}
      invariant remaining <= table.Keys
      invariant forall k | k in table && k !in remaining :: NewTarget(targets, k) in result
      invariant forall r | r in result :: exists k | k in table :: NewTarget(targets, k) == r && table[k] == result[r]
      decreases |remaining|
    {
      var target :| target in remaining;
      remaining := remaining - {target};
      result := result[NewTarget(targets, target) := table[target]];
    }
  }

  predicate Merges<V>(table: map<Target, V>, targets: map<Target, Target>) {
    exists a, b | a in table && b in table :: a != b && NewTarget(targets, a) == NewTarget(targets, b)
  }

  /** Without a merge every entry keeps its value under its new target. */
  lemma KeepsEveryEntry<V>(table: map<Target, V>, targets: map<Target, Target>, result: map<Target, V>)
    requires RekeyedTable(table, targets, result) && !Merges(table, targets)
    ensures forall k | k in table :: result[NewTarget(targets, k)] == table[k]
    ensures |result| == |table|
  {
    var back := map k | k in table :: NewTarget(targets, k);
    forall k | k in table
      ensures result[NewTarget(targets, k)] == table[k]
    {
      var r := NewTarget(targets, k);
      var other :| other in table && NewTarget(targets, other) == r && table[other] == result[r];
      assert other == k;
    }
    SameSize(table.Keys, result.Keys, back);
  }

  /** An injective map onto a set proves the two sets equally large. */
  lemma {:induction false} SameSize(a: set<Target>, b: set<Target>, f: map<Target, Target>)
    requires f.Keys == a
    requires forall x | x in a :: f[x] in b
    requires forall y | y in b :: exists x | x in a :: f[x] == y
    requires forall x, y | x in a && y in a && x != y :: f[x] != f[y]
    ensures |a| == |b|
  {
    if a == {} {
      assert b == {};
    } else {
      var x :| x in a;
      forall y | y in b - {f[x]}
        ensures exists z | z in a - {x} :: (f - {x})[z] == y
      {
        var z :| z in a && f[z] == y;
        assert (f - {x})[z] == y;
      }
      SameSize(a - {x}, b - {f[x]}, f - {x});
    }
  }

  /** Where accepted bindings move a Capability. */
  function MovedTarget(s: Snapshot, names: Names, c: Capability): Target {
    Target(s.fabric, Renamed(names, c.device), c.id)
  }

  /** A table loses an entry exactly when it holds, besides the target of a Capability
      whose Device is renamed, the target this Capability gets. */
  lemma MergesExactlyWhen<V>(s: Snapshot, names: Names, table: map<Target, V>, targets: map<Target, Target>)
    requires Valid(s) && TargetNames(s, names, targets)
    ensures Merges(table, targets) <==>
            exists c | c in s.capabilities && Renamed(names, c.device) != c.device ::
              TargetOf(s, c) in table && MovedTarget(s, names, c) in table
  {
    hide Valid, Own;
    if Merges(table, targets) {
      var a, b :| a in table && b in table && a != b && NewTarget(targets, a) == NewTarget(targets, b);
      var c := MergedBy(s, names, targets, a, b);
    }
    forall c | c in s.capabilities && Renamed(names, c.device) != c.device && TargetOf(s, c) in table && MovedTarget(s, names, c) in table
      ensures Merges(table, targets)
    {
      MovesOnto(s, names, targets, c);
    }
  }

  /** Two targets that meet are the old and the new target of one moved Capability. */
  lemma MergedBy(s: Snapshot, names: Names, targets: map<Target, Target>, a: Target, b: Target) returns (c: Capability)
    requires Valid(s) && TargetNames(s, names, targets) && a != b && NewTarget(targets, a) == NewTarget(targets, b)
    ensures c in s.capabilities && Renamed(names, c.device) != c.device && {TargetOf(s, c), MovedTarget(s, names, c)} == {a, b}
  {
    hide Valid;
    if a in targets && b in targets {
      SameCapability(s, a, b);
      assert false;
    }
    var moved := if a in targets then a else b;
    c :| c in s.capabilities && TargetOf(s, c) == moved;
  }

  /** A moved Capability's new target is never itself moved elsewhere. */
  lemma MovesOnto(s: Snapshot, names: Names, targets: map<Target, Target>, c: Capability)
    requires Valid(s) && TargetNames(s, names, targets) && c in s.capabilities && Renamed(names, c.device) != c.device
    ensures NewTarget(targets, TargetOf(s, c)) == NewTarget(targets, MovedTarget(s, names, c)) == MovedTarget(s, names, c)
    ensures TargetOf(s, c) != MovedTarget(s, names, c)
  {
    hide Valid;
    if MovedTarget(s, names, c) in targets {
      SameCapability(s, TargetOf(s, c), MovedTarget(s, names, c));
    }
  }

  lemma SameCapability(s: Snapshot, a: Target, b: Target)
    requires Valid(s) && Own(s, a) && Own(s, b) && a.capability == b.capability
    ensures a == b
  {
    hide ValidHeader, ValidDevices, ValidGrants, ValidCapability, BindingHolds;
    var i :| 0 <= i < |s.capabilities| && TargetOf(s, s.capabilities[i]) == a;
    var k :| 0 <= k < |s.capabilities| && TargetOf(s, s.capabilities[k]) == b;
  }

  /** A table that holds only the candidate's own targets never merges two of them. */
  lemma OwnTargetsNeverMerge<V>(s: Snapshot, names: Names, table: map<Target, V>, targets: map<Target, Target>)
    requires Valid(s) && ValidNames(names) && TargetNames(s, names, targets)
    requires forall k | k in table :: Own(s, k)
    ensures !Merges(table, targets)
  {
    hide Valid, Merges, TargetNames;
    MergesExactlyWhen(s, names, table, targets);
    forall c | c in s.capabilities && TargetOf(s, c) in table && MovedTarget(s, names, c) in table
      ensures Renamed(names, c.device) == c.device
    {
      SameCapability(s, TargetOf(s, c), MovedTarget(s, names, c));
    }
  }

  /** With a foreign key in the table an entry can be lost: the binding moves the
      Capability's target onto it. */
  lemma ForeignTargetMerges(s: Snapshot, names: Names, targets: map<Target, Target>, c: Capability, table: map<Target, string>)
    requires Valid(s) && TargetNames(s, names, targets)
    requires c in s.capabilities && Renamed(names, c.device) != c.device
    requires table == map[TargetOf(s, c) := "route", MovedTarget(s, names, c) := "stale"]
    ensures Merges(table, targets)
  {
    hide Valid, TargetNames, Merges;
    MergesExactlyWhen(s, names, table, targets);
  }

  const EXAMPLE_KEY := "aaaaaaaaaaaaaaaaaaaaaaaaaaaaaaaa"

  function ExampleSnapshot(): Snapshot {
    Snapshot(SNAPSHOT_SCHEMA, "fabric-one", 1, 1, 1, [Device("legacy-one", "node", [], "", "online", "")],
             [Capability("shell-main", "legacy-one", "shell", [], "", SHELL, "available", [], None, None)], [])
  }

  function ExampleNames(): Names {
    map["legacy-one" := DeviceBinding("legacy-one", DeviceID(EXAMPLE_KEY), EXAMPLE_KEY)]
  }

  lemma ExampleIdentifiers()
    ensures ValidIdentifier("fabric-one", LONGEST_IDENTIFIER)
    ensures ValidIdentifier("legacy-one", LONGEST_IDENTIFIER) && ValidIdentifier("shell-main", LONGEST_IDENTIFIER)
  {
  }

  lemma ExampleTexts()
    ensures ValidKey(EXAMPLE_KEY) && DeviceID(EXAMPLE_KEY) != "legacy-one"
    ensures !Blank("legacy-one") && !Blank(DeviceID(EXAMPLE_KEY))
  {
    assert DeviceID(EXAMPLE_KEY)[0] == 'd' && "legacy-one"[0] == 'l';
    assert !Space("legacy-one"[0]) && !Space(DeviceID(EXAMPLE_KEY)[0]);
  }

  lemma ExampleIsValid()
    ensures Valid(ExampleSnapshot())
  {
    hide ShellBinding.Verify, ValidProfile, ValidKey, DeviceID, ValidIdentifier;
    var s := ExampleSnapshot();
    ExampleIdentifiers();
    assert !Blank("node") && !Blank("shell") by {
      assert !Space("node"[0]) && !Space("shell"[0]);
    }
    assert s.devices[0] in s.devices && s.capabilities[0] in s.capabilities;
  }

  lemma ExampleApplies()
    ensures ValidNames(ExampleNames()) && Applicable(ExampleSnapshot(), ExampleNames())
    ensures DeviceID(EXAMPLE_KEY) != "legacy-one"
  {
    hide Valid, Blank, DeviceID, ValidKey, Replaceable;
    ExampleTexts();
    var devices := ExampleSnapshot().devices;
    assert devices[..0] == [];
    assert Index(devices) == map["legacy-one" := devices[0]];
  }

  /** A concrete candidate for which that happens. */
  lemma MergeExample(targets: map<Target, Target>)
    requires TargetNames(ExampleSnapshot(), ExampleNames(), targets)
    ensures Valid(ExampleSnapshot()) && ValidNames(ExampleNames()) && Applicable(ExampleSnapshot(), ExampleNames())
    ensures Merges(map[Target("fabric-one", "legacy-one", "shell-main") := "route",
                       Target("fabric-one", DeviceID(EXAMPLE_KEY), "shell-main") := "stale"], targets)
  {
    hide Valid, ValidNames, Applicable, DeviceID, Merges, TargetNames;
    ExampleIsValid();
    ExampleApplies();
    var c := ExampleSnapshot().capabilities[0];
    ForeignTargetMerges(ExampleSnapshot(), ExampleNames(), targets, c,
                        map[Target("fabric-one", "legacy-one", "shell-main") := "route",
                            Target("fabric-one", DeviceID(EXAMPLE_KEY), "shell-main") := "stale"]);
  }

  // ---- ApplyLegacyDeviceBindings -----------------------------------------------------------

  /** A discovered endpoint and the overlay node it was seen on. */
  datatype Endpoint = Endpoint(address: string, node: string)

  /** The private tables: endpoints by adapter, gateway definitions, external
      commands and remote user names. */
  datatype Candidate = Candidate(snapshot: Snapshot, routes: map<string, map<Target, seq<Endpoint>>>,
                                 gateway: map<Target, string>, commands: map<Target, string>, users: map<Target, string>)

  predicate RekeyedTables(from: Candidate, targets: map<Target, Target>, to: Candidate) {
    && to.routes.Keys == from.routes.Keys
    && (forall adapter | adapter in from.routes :: RekeyedTable(from.routes[adapter], targets, to.routes[adapter]))
    && RekeyedTable(from.gateway, targets, to.gateway)
    && RekeyedTable(from.commands, targets, to.commands)
    && RekeyedTable(from.users, targets, to.users)
  }

  method Apply(candidate: Candidate, bindings: seq<DeviceBinding>) returns (result: Candidate, ok: bool)
    ensures ok ==> ValidBindings(bindings)
    ensures ok ==> Applicable(candidate.snapshot, ByLegacy(bindings))
    ensures ok ==> Rekeyed(candidate.snapshot, ByLegacy(bindings), result.snapshot) && Valid(result.snapshot)
    ensures ok ==> exists targets :: TargetNames(candidate.snapshot, ByLegacy(bindings), targets) && RekeyedTables(candidate, targets, result)
    ensures Valid(candidate.snapshot) ==> (ok <==> ValidBindings(bindings) && Applicable(candidate.snapshot, ByLegacy(bindings)))
  {
    hide Valid, Rekeyed, ValidNames;
    result := candidate;
    ok := ValidateBindings(bindings);
    if !ok {
      return;
    }
    ByLegacyFinds(bindings);
    var names := IndexBindings(bindings);
    var collapsed, applicable := Collisions(candidate.snapshot, names);
    if !applicable {
      return result, false;
    }
    var snapshot, targets := Rename(candidate.snapshot, names, collapsed);
    if Valid(candidate.snapshot) {
      RekeyingKeepsValidity(candidate.snapshot, names, snapshot);
    }
    ok := Validate(snapshot);
    if !ok {
      return;
    }
    var routes := RekeyRoutes(candidate.routes, targets);
    var gateway := RekeyTable(candidate.gateway, targets);
    var commands := RekeyTable(candidate.commands, targets);
    var users := RekeyTable(candidate.users, targets);
    result := Candidate(snapshot, routes, gateway, commands, users);
    assert RekeyedTables(candidate, targets, result);
  }

  method IndexBindings(bindings: seq<DeviceBinding>) returns (names: Names)
    ensures names == ByLegacy(bindings)
  {
    names := map[];
    for i := 0 to |bindings|
      invariant names == ByLegacy(bindings[..i])
    {
      assert bindings[..i + 1][..i] == bindings[..i];
      names := names[bindings[i].legacy := bindings[i]];
    }
    assert bindings[..|bindings|] == bindings;
  }

  method IndexDevices(devices: seq<Device>) returns (index: map<string, Device>)
    ensures index == Index(devices)
  {
    index := map[];
    for i := 0 to |devices|
      invariant index == Index(devices[..i])
    {
      assert devices[..i + 1][..i] == devices[..i];
      index := index[devices[i].id := devices[i]];
    }
    assert devices[..|devices|] == devices;
  }

  method UsedDevices(s: Snapshot) returns (used: set<string>)
    ensures forall id :: id !in used <==> Unused(s, id)
  {
    used := {};
    for i := 0 to |s.capabilities|
      invariant used == set c | c in s.capabilities[..i] :: c.device
    {
      assert s.capabilities[..i + 1] == s.capabilities[..i] + [s.capabilities[i]];
      used := used + {s.capabilities[i].device};
    }
    assert s.capabilities[..|s.capabilities|] == s.capabilities;
  }

  /** The identities taken from owner-controllers; refused if one is taken otherwise. */
  method Collisions(s: Snapshot, names: Names) returns (collapsed: set<string>, ok: bool)
    ensures ok <==> Applicable(s, names)
    ensures ok ==> forall id | id in Index(s.devices) :: id in collapsed <==> Takes(names, id)
  {
    hide Unused, Index;
    collapsed := {};
    IndexFinds(s.devices);
    var index := IndexDevices(s.devices);
    ok := names.Keys <= index.Keys;
    if !ok {
      return;
    }
    var used := UsedDevices(s);
    var remaining := names.Keys;
    while remaining != {}
      invariant remaining <= names.Keys
      invariant forall id | id in collapsed :: id in index && Takes(names, id) && Replaceable(s, names, index[id])
      invariant forall legacy | legacy in names && legacy !in remaining && legacy != names[legacy].device ::
                  names[legacy].device in index ==> names[legacy].device in collapsed
      decreases |remaining|
    {
      var legacy :| legacy in remaining;
      remaining := remaining - {legacy};
      var device := names[legacy].device;
      if legacy != device && device in index {
        assert Takes(names, device);
        if device in names || index[device].alias != OWNER_CONTROLLER || device in used {
          return collapsed, false;
        }
        collapsed := collapsed + {device};
      }
    }
    ok := true;
  }

  method Rename(s: Snapshot, names: Names, collapsed: set<string>) returns (t: Snapshot, targets: map<Target, Target>)
    requires forall id | id in Index(s.devices) :: id in collapsed <==> Takes(names, id)
    ensures Rekeyed(s, names, t) && TargetNames(s, names, targets)
  {
    hide Takes, AllBound, AllMoved, AllRegranted, TargetNames, Index, Kept;
    var kept := KeepDevices(s.devices, names, collapsed);
    var devices := RenameDevices(kept, names);
    var capabilities;
    capabilities, targets := MoveCapabilities(s, names);
    var grants := Regrant(s.grants, names);
    t := s.(devices := devices, capabilities := capabilities, grants := grants);
  }

  method KeepDevices(devices: seq<Device>, names: Names, collapsed: set<string>) returns (kept: seq<Device>)
    requires forall id | id in Index(devices) :: id in collapsed <==> Takes(names, id)
    ensures kept == Kept(names, devices)
  {
    hide Takes, Index;
    IndexFinds(devices);
    kept := [];
    for i := 0 to |devices|
      invariant kept == Kept(names, devices[..i])
    {
      assert devices[..i + 1][..i] == devices[..i] && devices[i] in devices;
      if devices[i].id !in collapsed {
        kept := kept + [devices[i]];
      }
    }
    assert devices[..|devices|] == devices;
  }

  method RenameDevices(kept: seq<Device>, names: Names) returns (devices: seq<Device>)
    ensures AllBound(names, kept, devices)
  {
    devices := kept;
    for i := 0 to |devices|
      invariant |devices| == |kept|
      invariant forall k | 0 <= k < |devices| :: devices[k] == if k < i then Bound(names, kept[k]) else kept[k]
    {
      if devices[i].id in names {
        var binding := names[devices[i].id];
        devices := devices[i := devices[i].(id := binding.device, key := binding.key)];
      }
    }
  }

  method Regrant(before: seq<Grant>, names: Names) returns (grants: seq<Grant>)
    ensures AllRegranted(names, before, grants)
  {
    grants := before;
    for i := 0 to |grants|
      invariant |grants| == |before|
      invariant forall k | 0 <= k < |grants| :: grants[k] == if k < i then Regranted(names, before[k]) else before[k]
    {
      if grants[i].subject in names {
        grants := grants[i := grants[i].(subject := names[grants[i].subject].device)];
      }
    }
  }

  method MoveCapabilities(s: Snapshot, names: Names) returns (capabilities: seq<Capability>, targets: map<Target, Target>)
    ensures AllMoved(names, s.capabilities, capabilities) && TargetNames(s, names, targets)
  {
    capabilities, targets := s.capabilities, map[];
    for i := 0 to |capabilities|
      invariant |capabilities| == |s.capabilities|
      invariant forall k | 0 <= k < |capabilities| :: capabilities[k] == if k < i then Moved(names, s.capabilities[k]) else s.capabilities[k]
      invariant forall k | 0 <= k < i && s.capabilities[k].device in names :: TargetOf(s, s.capabilities[k]) in targets
      invariant forall k | k in targets :: Own(s, k) && k.device in names && targets[k] == k.(device := names[k.device].device)
    {
      var capability := capabilities[i];
      assert capability in s.capabilities;
      if capability.device in names {
        var device := names[capability.device].device;
        capabilities := capabilities[i := capability.(device := device, binding := None)];
        targets := targets[TargetOf(s, capability) := Target(s.fabric, device, capability.id)];
      }
    }
  }

  method RekeyRoutes(routes: map<string, map<Target, seq<Endpoint>>>, targets: map<Target, Target>)
    returns (result: map<string, map<Target, seq<Endpoint>>>)
    ensures result.Keys == routes.Keys
    ensures forall adapter | adapter in routes :: RekeyedTable(routes[adapter], targets, result[adapter])
  {
    hide RekeyedTable;
    result := map[];
    var remaining := routes.Keys;
    while remaining != {}
      invariant remaining <= routes.Keys && result.Keys == routes.Keys - remaining
      invariant forall adapter | adapter in result :: RekeyedTable(routes[adapter], targets, result[adapter])
      decreases |remaining|
    {
      var adapter :| adapter in remaining;
      remaining := remaining - {adapter};
      var table := RekeyTable(routes[adapter], targets);
      result := result[adapter := table];
    }
  }

  /** For a valid candidate whose route tables hold only its own targets, applying
      accepted bindings yields a valid snapshot and keeps every route entry. */
  lemma RoutesSurvive<V>(candidate: Candidate, result: Candidate, names: Names, targets: map<Target, Target>,
                         table: map<Target, V>, rekeyed: map<Target, V>)
    requires Valid(candidate.snapshot) && ValidNames(names) && Applicable(candidate.snapshot, names)
    requires Rekeyed(candidate.snapshot, names, result.snapshot) && TargetNames(candidate.snapshot, names, targets)
    requires RekeyedTable(table, targets, rekeyed) && forall k | k in table :: Own(candidate.snapshot, k)
    ensures Valid(result.snapshot)
    ensures |rekeyed| == |table|
    ensures forall k | k in table :: rekeyed[NewTarget(targets, k)] == table[k] && Own(result.snapshot, NewTarget(targets, k))
  {
    hide Valid, ValidNames, Applicable, Merges, Rekeyed, TargetNames, RekeyedTable, Own;
    RekeyingKeepsValidity(candidate.snapshot, names, result.snapshot);
    OwnTargetsNeverMerge(candidate.snapshot, names, table, targets);
    KeepsEveryEntry(table, targets, rekeyed);
    forall k | k in table
      ensures Own(result.snapshot, NewTarget(targets, k))
    {
      OwnStaysOwn(candidate.snapshot, result.snapshot, names, targets, k);
    }
  }

  lemma OwnStaysOwn(s: Snapshot, t: Snapshot, names: Names, targets: map<Target, Target>, k: Target)
    requires Rekeyed(s, names, t) && TargetNames(s, names, targets) && Own(s, k)
    ensures Own(t, NewTarget(targets, k))
  {
    var i :| 0 <= i < |s.capabilities| && TargetOf(s, s.capabilities[i]) == k;
    assert t.capabilities[i] == Moved(names, s.capabilities[i]) && t.capabilities[i] in t.capabilities;
    assert TargetOf(t, t.capabilities[i]) == NewTarget(targets, k);
  }

  /** Where a table's entry goes, in terms of the bindings: under the identity-bound Device if
      the target is the candidate's own and on a bound Device, and nowhere else otherwise. */
  lemma NewTargetMeans(s: Snapshot, bindings: seq<DeviceBinding>, targets: map<Target, Target>, k: Target)
    requires ValidBindings(bindings) && TargetNames(s, ByLegacy(bindings), targets)
    ensures var own := exists c | c in s.capabilities :: k == Target(s.fabric, c.device, c.id);
            && (forall b | b in bindings && b.legacy == k.device && own :: NewTarget(targets, k) == Target(k.fabric, b.device, k.capability))
            && (!own || (forall b | b in bindings :: b.legacy != k.device) ==> NewTarget(targets, k) == k)
  {
    hide ValidBindings, ByLegacy;
    NamesAre(bindings, k.device);
  }

  /** Where no two entries of a table meet, every one of them is found under its new target
      with its value: the routes of every adapter, gateway definitions, commands and users. */
  lemma EveryTableMoves(from: Candidate, targets: map<Target, Target>, to: Candidate)
    requires RekeyedTables(from, targets, to)
    ensures to.routes.Keys == from.routes.Keys
    ensures forall adapter | adapter in from.routes && !Merges(from.routes[adapter], targets) ::
              |to.routes[adapter]| == |from.routes[adapter]|
              && forall k | k in from.routes[adapter] :: to.routes[adapter][NewTarget(targets, k)] == from.routes[adapter][k]
    ensures !Merges(from.gateway, targets) ==>
              |to.gateway| == |from.gateway| && forall k | k in from.gateway :: to.gateway[NewTarget(targets, k)] == from.gateway[k]
    ensures !Merges(from.commands, targets) ==>
              |to.commands| == |from.commands| && forall k | k in from.commands :: to.commands[NewTarget(targets, k)] == from.commands[k]
    ensures !Merges(from.users, targets) ==>
              |to.users| == |from.users| && forall k | k in from.users :: to.users[NewTarget(targets, k)] == from.users[k]
  {
    hide Merges;
    forall adapter | adapter in from.routes && !Merges(from.routes[adapter], targets)
      ensures |to.routes[adapter]| == |from.routes[adapter]|
              && forall k | k in from.routes[adapter] :: to.routes[adapter][NewTarget(targets, k)] == from.routes[adapter][k]
    {
      KeepsEveryEntry(from.routes[adapter], targets, to.routes[adapter]);
    }
    if !Merges(from.gateway, targets) {
      KeepsEveryEntry(from.gateway, targets, to.gateway);
    }
    if !Merges(from.commands, targets) {
      KeepsEveryEntry(from.commands, targets, to.commands);
    }
    if !Merges(from.users, targets) {
      KeepsEveryEntry(from.users, targets, to.users);
    }
  }
}
