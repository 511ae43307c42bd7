/** State snapshots and the well-formedness check shared by the store, the catalog
    and the re-keying of legacy candidates. Times are integers, zero being "not set". */
module Snapshots {
  import opened Common
  import opened Identity
  import ShellBinding

  const SNAPSHOT_SCHEMA := "pfremote.state-snapshot/v1"
  const LONGEST_IDENTIFIER := 96
  const SHELL := "shell"
  const DESKTOP := "desktop"
  const ACTIVE := "active"
  const REVOKED := "revoked"

  type Binding = ShellBinding.Binding

  /** `key` is empty when the Device carries no identity key. */
  datatype Device = Device(id: string, alias: string, previousAliases: seq<string>, displayName: string,
                           state: string, key: Key)

  datatype Profile = Profile(protocol: string, rendering: string, authentication: string, effects: string, selector: string)

  datatype Capability = Capability(id: string, device: string, alias: string, previousAliases: seq<string>, displayName: string,
                                   kind: string, state: string, features: seq<string>,
                                   binding: Option<Binding>, profile: Option<Profile>)

  datatype Grant = Grant(id: string, subject: string, capability: string, state: string, validUntil: Option<int>)

  /** A canonical target reference: Fabric, Device and Capability ID. */
  datatype Target = Target(fabric: string, device: string, capability: string)

  datatype Snapshot = Snapshot(schema: string, fabric: string, directoryVersion: nat, grantVersion: nat, capturedAt: int,
                               devices: seq<Device>, capabilities: seq<Capability>, grants: seq<Grant>)

  /** The characters strings.TrimSpace removes. */
  predicate Space(c: char) {
    c in {'\t', '\n', '\U{b}', '\U{c}', '\r', ' ', '\U{85}', '\U{a0}', '\U{1680}', '\U{2028}', '\U{2029}', '\U{202f}', '\U{205f}', '\U{3000}'}
    || '\U{2000}' <= c <= '\U{200a}'
  }

  predicate Blank(text: string) {
    forall i | 0 <= i < |text| :: Space(text[i])
  }

  predicate SelectorChar(c: char) {
    'a' <= c <= 'z' || 'A' <= c <= 'Z' || '0' <= c <= '9' || c == '-' || c == '_'
  }

  predicate ValidSelector(p: Profile) {
    && (p.selector != "" ==> p.protocol == "rdp")
    && |p.selector| <= 64
    && forall i | 0 <= i < |p.selector| :: SelectorChar(p.selector[i])
  }

  predicate ValidProfile(p: Profile) {
    && p.protocol in {"rdp", "vnc", "external"}
    && p.rendering in {"virtual", "physical"}
    && (p.authentication == ""
        || (p.protocol == "rdp" && p.authentication in {"windows-sso", "tailscale-device"})
        || (p.protocol == "vnc" && p.authentication in {"x509-route-grant", "tailscale-device", "legacy-vnc-password"})
        || (p.protocol == "external" && p.authentication == "legacy-private-executor"))
    && ValidSelector(p)
  }

  predicate ValidDevice(d: Device) {
    && ValidIdentifier(d.id, LONGEST_IDENTIFIER) && !Blank(d.alias)
    && (d.key != "" ==> ValidKey(d.key) && DeviceID(d.key) == d.id)
  }

  predicate HasDevice(devices: seq<Device>, id: string) {
    exists d | d in devices :: d.id == id
  }

  predicate HasCapability(capabilities: seq<Capability>, id: string) {
    exists c | c in capabilities :: c.id == id
  }

  /** What a Capability must satisfy by itself and with respect to its Device. */
  predicate ValidCapability(c: Capability) {
    && ValidIdentifier(c.id, LONGEST_IDENTIFIER) && !Blank(c.alias) && c.kind in {SHELL, DESKTOP}
    && (c.profile.Some? ==> c.kind == DESKTOP && ValidProfile(c.profile.value))
  }

  predicate BindingHolds(c: Capability, d: Device, fabric: string) {
    c.binding.Some? ==> c.kind == SHELL && ShellBinding.Verify(d.id, d.key, c.id, fabric, c.binding.value)
  }

  predicate ValidGrant(g: Grant) {
    ValidIdentifier(g.id, LONGEST_IDENTIFIER) && g.state in {ACTIVE, REVOKED}
  }

  predicate UniqueDevices(devices: seq<Device>) {
    forall i, j | 0 <= i < j < |devices| :: devices[i].id != devices[j].id
  }

  predicate UniqueCapabilities(capabilities: seq<Capability>) {
    forall i, j | 0 <= i < j < |capabilities| :: capabilities[i].id != capabilities[j].id
  }

  predicate UniqueGrants(grants: seq<Grant>) {
    forall i, j | 0 <= i < j < |grants| :: grants[i].id != grants[j].id
  }

  predicate ValidHeader(s: Snapshot) {
    && s.schema == SNAPSHOT_SCHEMA && ValidIdentifier(s.fabric, LONGEST_IDENTIFIER)
    && s.directoryVersion != 0 && s.grantVersion != 0 && s.capturedAt != 0
  }

  predicate ValidDevices(devices: seq<Device>) {
    UniqueDevices(devices) && forall d | d in devices :: ValidDevice(d)
  }

  predicate ValidCapabilities(capabilities: seq<Capability>, devices: seq<Device>, fabric: string) {
    && UniqueCapabilities(capabilities)
    && (forall c | c in capabilities :: ValidCapability(c) && HasDevice(devices, c.device))
    && (forall c, d | c in capabilities && d in devices && d.id == c.device :: BindingHolds(c, d, fabric))
  }

  predicate ValidGrants(grants: seq<Grant>, devices: seq<Device>, capabilities: seq<Capability>) {
    && UniqueGrants(grants)
    && forall g | g in grants :: ValidGrant(g) && HasDevice(devices, g.subject) && HasCapability(capabilities, g.capability)
  }

  predicate Valid(s: Snapshot) {
    && ValidHeader(s)
    && ValidDevices(s.devices)
    && ValidCapabilities(s.capabilities, s.devices, s.fabric)
    && ValidGrants(s.grants, s.devices, s.capabilities)
  }

  /** The single pass over each list, with the maps it fills, decides Valid. */
  method Validate(s: Snapshot) returns (ok: bool)
    ensures ok <==> Valid(s)
  {
    hide ValidDevices, ValidCapabilities, ValidGrants;
    if s.schema != SNAPSHOT_SCHEMA {
      return false;
    }
    if !ValidIdentifier(s.fabric, LONGEST_IDENTIFIER) || s.directoryVersion == 0 || s.grantVersion == 0 || s.capturedAt == 0 {
      return false;
    }
    var devices, devicesOk := CheckDevices(s.devices);
    if !devicesOk {
      return false;
    }
    var capabilities, capabilitiesOk := CheckCapabilities(s.capabilities, s.devices, devices, s.fabric);
    if !capabilitiesOk {
      return false;
    }
    ok := CheckGrants(s.grants, s.devices, devices, s.capabilities, capabilities);
  }

  /** The map of what a list of Devices contains. */
  ghost predicate Indexes(index: map<string, Device>, devices: seq<Device>) {
    && (forall id | id in index :: index[id].id == id && index[id] in devices)
    && (forall d | d in devices :: d.id in index && index[d.id] == d)
  }

  method CheckDevices(devices: seq<Device>) returns (index: map<string, Device>, ok: bool)
    ensures ok <==> ValidDevices(devices)
    ensures ok ==> Indexes(index, devices)
  {
    hide ValidIdentifier, Blank, ValidKey, DeviceID;
    index := map[];
    for i := 0 to |devices|
      invariant ValidDevices(devices[..i]) && Indexes(index, devices[..i])
    {
      var device := devices[i];
      assert device in devices && devices[..i + 1] == devices[..i] + [device];
      if !ValidIdentifier(device.id, LONGEST_IDENTIFIER) || Blank(device.alias) {
        return index, false;
      }
      if device.id in index {
        var k :| 0 <= k < i && devices[k] == index[device.id];
        return index, false;
      }
      if device.key != "" && (!ValidKey(device.key) || DeviceID(device.key) != device.id) {
        return index, false;
      }
      index := index[device.id := device];
    }
    assert devices[..|devices|] == devices;
    ok := true;
  }

  method CheckCapabilities(capabilities: seq<Capability>, ghost devices: seq<Device>, index: map<string, Device>, fabric: string)
    returns (seen: set<string>, ok: bool)
    requires ValidDevices(devices) && Indexes(index, devices)
    ensures ok <==> ValidCapabilities(capabilities, devices, fabric)
    ensures ok ==> seen == set c | c in capabilities :: c.id
  {
    hide ValidCapability, ValidDevice, ValidProfile;
    seen := {};
    for i := 0 to |capabilities|
      invariant ValidCapabilities(capabilities[..i], devices, fabric)
      invariant seen == set c | c in capabilities[..i] :: c.id
    {
      var capability := capabilities[i];
      assert capability in capabilities && capabilities[..i + 1] == capabilities[..i] + [capability];
      var fits := CheckCapability(capability, devices, index, fabric);
      if !fits {
        return seen, false;
      }
      if capability.id in seen {
        var earlier :| earlier in capabilities[..i] && earlier.id == capability.id;
        return seen, false;
      }
      seen := seen + {capability.id};
    }
    assert capabilities[..|capabilities|] == capabilities;
    ok := true;
  }

  method CheckCapability(c: Capability, ghost devices: seq<Device>, index: map<string, Device>, fabric: string) returns (ok: bool)
    requires ValidDevices(devices) && Indexes(index, devices)
    ensures ok <==> ValidCapability(c) && HasDevice(devices, c.device)
                    && (forall d | d in devices && d.id == c.device :: BindingHolds(c, d, fabric))
  {
    hide ShellBinding.Verify;
    if !ValidIdentifier(c.id, LONGEST_IDENTIFIER) || Blank(c.alias) {
      return false;
    }
    if c.device !in index {
      return false;
    }
    if c.kind != SHELL && c.kind != DESKTOP {
      return false;
    }
    var device := index[c.device];
    assert device in devices && device.id == c.device;
    if c.binding.Some? {
      var verified := c.kind == SHELL;
      if verified {
        verified := ShellBinding.VerifyBinding(device.id, device.key, c.id, fabric, c.binding.value);
      }
      assert verified == BindingHolds(c, device, fabric);
      if !verified {
        return false;
      }
    }
    ok := c.profile.None? || (c.kind == DESKTOP && ValidProfile(c.profile.value));
  }

  method CheckGrants(grants: seq<Grant>, ghost devices: seq<Device>, index: map<string, Device>,
                     ghost capabilities: seq<Capability>, known: set<string>) returns (ok: bool)
    requires Indexes(index, devices) && known == set c | c in capabilities :: c.id
    ensures ok <==> ValidGrants(grants, devices, capabilities)
  {
    var seen: set<string> := {};
    for i := 0 to |grants|
      invariant ValidGrants(grants[..i], devices, capabilities)
      invariant seen == set g | g in grants[..i] :: g.id
    {
      var grant := grants[i];
      assert grant in grants && grants[..i + 1] == grants[..i] + [grant];
      if !ValidIdentifier(grant.id, LONGEST_IDENTIFIER) || (grant.state != ACTIVE && grant.state != REVOKED) {
        return false;
      }
      if grant.subject !in index || grant.capability !in known {
        return false;
      }
      assert HasDevice(devices, grant.subject) by {
        assert index[grant.subject] in devices;
      }
      if grant.id in seen {
        var earlier :| earlier in grants[..i] && earlier.id == grant.id;
        return false;
      }
      seen := seen + {grant.id};
    }
    assert grants[..|grants|] == grants;
    ok := true;
  }

  // ---- the same in plain terms --------------------------------------------------------

  /** The code points that Unicode counts as white space. */
  predicate WhiteSpace(code: int) {
    9 <= code <= 13 || 8192 <= code <= 8202 || code in {32, 133, 160, 5760, 8232, 8233, 8239, 8287, 12288}
  }

  predicate HasText(text: string) {
    exists i | 0 <= i < |text| :: !WhiteSpace(text[i] as int)
  }

  lemma BlankMeans(text: string)
    ensures Blank(text) <==> !HasText(text)
  {
    assert forall c: char :: Space(c) <==> WhiteSpace(c as int);
  }

  /** An identifier of 3 to 96 characters. */
  predicate PlainIdentifier(id: string) {
    && 3 <= |id| <= 96 && (forall i | 0 <= i < |id| :: PlainChar(id[i] as int))
    && id[0] != '-' && id[|id| - 1] != '-'
  }

  /** The protocols and the ways each may authenticate; none may be given. */
  predicate Authenticates(protocol: string, authentication: string) {
    match protocol
    case "rdp" => authentication in {"", "windows-sso", "tailscale-device"}
    case "vnc" => authentication in {"", "x509-route-grant", "tailscale-device", "legacy-vnc-password"}
    case "external" => authentication in {"", "legacy-private-executor"}
    case _ => false
  }

  predicate SelectorText(text: string) {
    |text| <= 64 && forall i | 0 <= i < |text| ::
      65 <= text[i] as int <= 90 || 97 <= text[i] as int <= 122 || 48 <= text[i] as int <= 57 || text[i] as int in {45, 95}
  }

  lemma ProfilesMean(p: Profile)
    ensures ValidProfile(p) <==>
            && Authenticates(p.protocol, p.authentication) && (p.rendering == "virtual" || p.rendering == "physical")
            && (p.selector == "" || (p.protocol == "rdp" && SelectorText(p.selector)))
  {
    assert forall c: char :: SelectorChar(c) <==>
             65 <= c as int <= 90 || 97 <= c as int <= 122 || 48 <= c as int <= 57 || c as int in {45, 95};
  }

  predicate DeviceStands(d: Device) {
    PlainIdentifier(d.id) && HasText(d.alias) && (d.key == "" || (ValidKey(d.key) && d.id == "device-" + d.key))
  }

  /** A Shell or Desktop on a known Device; only a Shell has a binding, which its Device
      signed, and only a Desktop a profile. */
  predicate CapabilityStands(c: Capability, devices: seq<Device>, fabric: string) {
    && PlainIdentifier(c.id) && HasText(c.alias) && (c.kind == "shell" || c.kind == "desktop")
    && (exists d | d in devices :: d.id == c.device)
    && (c.binding.Some? ==> c.kind == "shell")
    && (forall d | d in devices && d.id == c.device && c.binding.Some? ::
          ShellBinding.Verify(c.device, d.key, c.id, fabric, c.binding.value))
    && (c.profile.Some? ==> c.kind == "desktop" && ValidProfile(c.profile.value))
  }

  predicate GrantStands(g: Grant, s: Snapshot) {
    && PlainIdentifier(g.id) && (g.state == "active" || g.state == "revoked")
    && (exists d | d in s.devices :: d.id == g.subject) && exists c | c in s.capabilities :: c.id == g.capability
  }

  /** What makes a snapshot acceptable: a complete header, and Devices, Capabilities and
      grants that are each well formed, refer to one another and have their IDs for themselves. */
  lemma ValidMeans(s: Snapshot)
    ensures Valid(s) <==>
            && s.schema == "pfremote.state-snapshot/v1" && PlainIdentifier(s.fabric)
            && s.directoryVersion > 0 && s.grantVersion > 0 && s.capturedAt != 0
            && (forall d | d in s.devices :: DeviceStands(d))
            && (forall c | c in s.capabilities :: CapabilityStands(c, s.devices, s.fabric))
            && (forall g | g in s.grants :: GrantStands(g, s))
            && (forall i, j | 0 <= i < j < |s.devices| :: s.devices[i].id != s.devices[j].id)
            && (forall i, j | 0 <= i < j < |s.capabilities| :: s.capabilities[i].id != s.capabilities[j].id)
            && forall i, j | 0 <= i < j < |s.grants| :: s.grants[i].id != s.grants[j].id
  {
    hide ShellBinding.Verify, ValidProfile, ValidDevice, DeviceStands, ValidCapability, BindingHolds, CapabilityStands, ValidGrant, GrantStands,
      ValidIdentifier, PlainIdentifier, HasDevice;
    PlainIsValid(s.fabric);
    forall d | d in s.devices
      ensures ValidDevice(d) <==> DeviceStands(d)
    {
      DevicesMean(d);
    }
    forall c | c in s.capabilities
      ensures CapabilityStands(c, s.devices, s.fabric) <==>
              ValidCapability(c) && HasDevice(s.devices, c.device)
              && forall d | d in s.devices && d.id == c.device :: BindingHolds(c, d, s.fabric)
    {
      CapabilitiesMean(c, s.devices, s.fabric);
    }
    forall g | g in s.grants
      ensures GrantStands(g, s) <==> ValidGrant(g) && HasDevice(s.devices, g.subject) && HasCapability(s.capabilities, g.capability)
    {
      GrantsMean(g, s);
    }
  }

  lemma PlainIsValid(id: string)
    ensures ValidIdentifier(id, LONGEST_IDENTIFIER) <==> PlainIdentifier(id)
  {
    IdentifiersMean(id, LONGEST_IDENTIFIER);
  }

  lemma DevicesMean(d: Device)
    ensures ValidDevice(d) <==> DeviceStands(d)
  {
    hide ValidIdentifier, PlainIdentifier, ValidKey;
    PlainIsValid(d.id);
    BlankMeans(d.alias);
  }

  lemma CapabilitiesMean(c: Capability, devices: seq<Device>, fabric: string)
    ensures CapabilityStands(c, devices, fabric) <==>
            ValidCapability(c) && HasDevice(devices, c.device) && forall d | d in devices && d.id == c.device :: BindingHolds(c, d, fabric)
  {
    hide ValidIdentifier, PlainIdentifier, ValidProfile, ShellBinding.Verify;
    PlainIsValid(c.id);
    BlankMeans(c.alias);
  }

  lemma GrantsMean(g: Grant, s: Snapshot)
    ensures GrantStands(g, s) <==> ValidGrant(g) && HasDevice(s.devices, g.subject) && HasCapability(s.capabilities, g.capability)
  {
    hide ValidIdentifier, PlainIdentifier;
    PlainIsValid(g.id);
  }
}
