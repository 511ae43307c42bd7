/** Binding a Shell Capability to the OpenSSH host keys its Device authorised. Strings
    are byte strings: one char per byte. */
module ShellBinding {
  import opened Common
  import opened Identity
  import opened Sorting

  const BINDING_SCHEMA := "pfremote.ssh-capability-binding/v1"
  const SIGNING_DOMAIN := "PFREMOTE-SSH-CAPABILITY-BINDING-V1"
  const MAX_HOST_KEYS := 4
  const MAX_HOST_KEY_BLOB := 16384
  const MAX_ENCODED_BLOB := 21848 // standard base64 length of one byte more than the limit
  const MAX_BINDING_VERSION := 0x7FFF_FFFF_FFFF_FFFF
  const TWO_32 := 0x1_0000_0000
  const TWO_64 := 0x1_0000_0000_0000_0000

  datatype HostKey = HostKey(algorithm: string, publicKey: string)

  datatype Binding = Binding(schema: string, fabric: string, device: string, capability: string, version: nat,
                             hostKeys: seq<HostKey>, signature: Signature<string>)

  // ---- signing bytes --------------------------------------------------------------

  /** `n` modulo 256^width, most significant byte first. */
  function BigEndian(n: nat, width: nat): (bytes: string)
    ensures |bytes| == width
  {
    if width == 0 then "" else BigEndian(n / 256, width - 1) + [(n % 256) as char]
  }

  function Power256(width: nat): nat {
    if width == 0 then 1 else 256 * Power256(width - 1)
  }

  function Framed(value: string): string {
    BigEndian(|value| % TWO_32, 4) + value
  }

  function FramedKeys(keys: seq<HostKey>): string {
    if keys == [] then "" else FramedKeys(keys[..|keys| - 1]) + Framed(keys[|keys| - 1].algorithm) + Framed(keys[|keys| - 1].publicKey)
  }

  // The message from some field on.
  function FromKeys(keys: seq<HostKey>): string { BigEndian(|keys| % TWO_32, 4) + FramedKeys(keys) }
  function FromVersion(b: Binding): string { BigEndian(b.version % TWO_64, 8) + FromKeys(b.hostKeys) }
  function FromCapability(b: Binding): string { Framed(b.capability) + FromVersion(b) }
  function FromDevice(b: Binding): string { Framed(b.device) + FromCapability(b) }
  function FromFabric(b: Binding): string { Framed(b.fabric) + FromDevice(b) }
  function FromSchema(b: Binding): string { Framed(b.schema) + FromFabric(b) }

  /** What is signed: the domain, four framed fields, the version, the framed host keys. */
  function SigningBytes(b: Binding): string {
    SIGNING_DOMAIN + FromSchema(b)
  }

  method WriteString(buffer: string, value: string) returns (output: string)
    ensures output == buffer + Framed(value)
  {
    output := buffer + BigEndian(|value| % TWO_32, 4);
    output := output + value;
  }

  lemma Regroup(a: string, b: string, c: string)
    ensures a + (b + c) == (a + b) + c
  {
  }

  /** The buffer signingInput fills. */
  method SigningInput(b: Binding) returns (output: string)
    ensures output == SigningBytes(b)
  {
    hide Framed, FramedKeys, BigEndian;
    output := SIGNING_DOMAIN;
    Regroup(output, Framed(b.schema), FromFabric(b));
    output := WriteString(output, b.schema);
    Regroup(output, Framed(b.fabric), FromDevice(b));
    output := WriteString(output, b.fabric);
    Regroup(output, Framed(b.device), FromCapability(b));
    output := WriteString(output, b.device);
    Regroup(output, Framed(b.capability), FromVersion(b));
    output := WriteString(output, b.capability);
    Regroup(output, BigEndian(b.version % TWO_64, 8), FromKeys(b.hostKeys));
    output := output + BigEndian(b.version % TWO_64, 8);
    Regroup(output, BigEndian(|b.hostKeys| % TWO_32, 4), FramedKeys(b.hostKeys));
    output := output + BigEndian(|b.hostKeys| % TWO_32, 4);
    assert output + FramedKeys(b.hostKeys) == SigningBytes(b);
    var keys := WriteKeys(b.hostKeys);
    output := output + keys;
  }

  method WriteKeys(keys: seq<HostKey>) returns (output: string)
    ensures output == FramedKeys(keys)
  {
    output := "";
    for i := 0 to |keys|
      invariant output == FramedKeys(keys[..i])
    {
      output := WriteString(output, keys[i].algorithm);
      output := WriteString(output, keys[i].publicKey);
      assert keys[..i + 1][..i] == keys[..i];
    }
    assert keys[..|keys|] == keys;
  }

  lemma {:induction false} BigEndianInjective(a: nat, b: nat, width: nat)
    requires a < Power256(width) && b < Power256(width)
    requires BigEndian(a, width) == BigEndian(b, width)
    ensures a == b
  {
    if width > 0 {
      var x, y := BigEndian(a, width), BigEndian(b, width);
      assert x[..width - 1] == BigEndian(a / 256, width - 1) && y[..width - 1] == BigEndian(b / 256, width - 1);
      assert x[width - 1] == (a % 256) as char && y[width - 1] == (b % 256) as char;
      BigEndianInjective(a / 256, b / 256, width - 1);
    }
  }

  lemma Widths()
    ensures Power256(4) == TWO_32 && Power256(8) == TWO_64
  {
    assert Power256(4) == 256 * (256 * (256 * (256 * Power256(0))));
    assert Power256(8) == 256 * (256 * (256 * (256 * Power256(4))));
  }

  lemma SplitAt(a: string, x: string, b: string, y: string)
    requires a + x == b + y && |a| == |b|
    ensures a == b && x == y
  {
    assert a == (a + x)[..|a|] && b == (b + y)[..|b|];
    assert x == (a + x)[|a|..] && y == (b + y)[|b|..];
  }

  lemma NumberPrefix(a: nat, x: string, b: nat, y: string, width: nat)
    requires a < Power256(width) && b < Power256(width)
    requires BigEndian(a, width) + x == BigEndian(b, width) + y
    ensures a == b && x == y
  {
    SplitAt(BigEndian(a, width), x, BigEndian(b, width), y);
    BigEndianInjective(a, b, width);
  }

  /** A framed field followed by anything can be read back in only one way. */
  lemma FramePrefix(a: string, x: string, b: string, y: string)
    requires |a| < TWO_32 && |b| < TWO_32
    requires Framed(a) + x == Framed(b) + y
    ensures a == b && x == y
  {
    hide BigEndian, Power256;
    Widths();
    Regroup(BigEndian(|a|, 4), a, x);
    Regroup(BigEndian(|b|, 4), b, y);
    NumberPrefix(|a|, a + x, |b|, b + y, 4);
    SplitAt(a, x, b, y);
  }

  predicate ShortKeys(keys: seq<HostKey>) {
    forall i | 0 <= i < |keys| :: |keys[i].algorithm| < TWO_32 && |keys[i].publicKey| < TWO_32
  }

  lemma {:induction false} FramedKeysHead(keys: seq<HostKey>)
    requires keys != []
    ensures FramedKeys(keys) == Framed(keys[0].algorithm) + (Framed(keys[0].publicKey) + FramedKeys(keys[1..]))
  {
    if |keys| > 1 {
      var init := keys[..|keys| - 1];
      FramedKeysHead(init);
      assert init[1..] == keys[1..][..|keys[1..]| - 1];
    }
  }

  lemma {:induction false} FramedKeysInjective(a: seq<HostKey>, b: seq<HostKey>)
    requires |a| == |b| && ShortKeys(a) && ShortKeys(b) && FramedKeys(a) == FramedKeys(b)
    ensures a == b
  {
    if a != [] {
      FramedKeysHead(a);
      FramedKeysHead(b);
      FramePrefix(a[0].algorithm, Framed(a[0].publicKey) + FramedKeys(a[1..]),
                  b[0].algorithm, Framed(b[0].publicKey) + FramedKeys(b[1..]));
      FramePrefix(a[0].publicKey, FramedKeys(a[1..]), b[0].publicKey, FramedKeys(b[1..]));
      FramedKeysInjective(a[1..], b[1..]);
      assert a == [a[0]] + a[1..] && b == [b[0]] + b[1..];
    }
  }

  /** Fields and counts that fit their length prefixes. */
  predicate FitsPrefixes(b: Binding) {
    && |b.schema| < TWO_32 && |b.fabric| < TWO_32 && |b.device| < TWO_32 && |b.capability| < TWO_32
    && b.version < TWO_64 && |b.hostKeys| < TWO_32 && ShortKeys(b.hostKeys)
  }

  lemma DropDomain(x: string, y: string)
    requires SIGNING_DOMAIN + x == SIGNING_DOMAIN + y
    ensures x == y
  {
    SplitAt(SIGNING_DOMAIN, x, SIGNING_DOMAIN, y);
  }

  /** Equal signing bytes come only from equal fields: no two different bindings
      share a signed message. */
  lemma SigningBytesInjective(b: Binding, c: Binding)
    requires FitsPrefixes(b) && FitsPrefixes(c) && SigningBytes(b) == SigningBytes(c)
    ensures b == c.(signature := b.signature)
  {
    hide Framed, FramedKeys, BigEndian, Power256;
    Widths();
    DropDomain(FromSchema(b), FromSchema(c));
    FramePrefix(b.schema, FromFabric(b), c.schema, FromFabric(c));
    FramePrefix(b.fabric, FromDevice(b), c.fabric, FromDevice(c));
    FramePrefix(b.device, FromCapability(b), c.device, FromCapability(c));
    FramePrefix(b.capability, FromVersion(b), c.capability, FromVersion(c));
    NumberPrefix(b.version, FromKeys(b.hostKeys), c.version, FromKeys(c.hostKeys), 8);
    NumberPrefix(|b.hostKeys|, FramedKeys(b.hostKeys), |c.hostKeys|, FramedKeys(c.hostKeys), 4);
    FramedKeysInjective(b.hostKeys, c.hostKeys);
  }

  // ---- host keys ------------------------------------------------------------------

  predicate Alphanumeric(c: char) {
    'A' <= c <= 'Z' || 'a' <= c <= 'z' || '0' <= c <= '9'
  }

  predicate ValidAlgorithm(text: string) {
    && 1 <= |text| <= 64
    && Alphanumeric(text[0])
    && forall i | 0 <= i < |text| :: Alphanumeric(text[i]) || text[i] in {'@', '.', '_', '+', '-'}
  }

  function Sextet(c: char): Option<nat> {
    if 'A' <= c <= 'Z' then Some((c - 'A') as nat)
    else if 'a' <= c <= 'z' then Some((c - 'a') as nat + 26)
    else if '0' <= c <= '9' then Some((c - '0') as nat + 52)
    else if c == '+' then Some(62)
    else if c == '/' then Some(63)
    else None
  }

  // The bytes that four groups of six bits stand for.
  function Byte0(p: nat, q: nat): nat { p * 4 + q / 16 }
  function Byte1(q: nat, r: nat): nat { q % 16 * 16 + r / 4 }
  function Byte2(r: nat, t: nat): nat { r % 4 * 64 + t }

  function AsByte(n: nat): string {
    if n < 256 then [n as char] else ""
  }

  /** Unpadded base64; strict, so unused trailing bits must be zero. */
  function DecodeRaw(text: string): Option<string> {
    if text == "" then Some("")
    else if |text| == 1 then None
    else
      var first, second := Sextet(text[0]), Sextet(text[1]);
      if first.None? || second.None? then None
      else
        var byte0 := AsByte(Byte0(first.value, second.value));
        if |text| == 2 then (if second.value % 16 == 0 then Some(byte0) else None)
        else
          var third := Sextet(text[2]);
          if third.None? then None
          else
            var byte1 := AsByte(Byte1(second.value, third.value));
            if |text| == 3 then (if third.value % 4 == 0 then Some(byte0 + byte1) else None)
            else
              var fourth, rest := Sextet(text[3]), DecodeRaw(text[4..]);
              if fourth.None? || rest.None? then None
              else Some(byte0 + byte1 + AsByte(Byte2(third.value, fourth.value)) + rest.value)
  }

  function TrimPadding(text: string): string {
    if text != "" && text[|text| - 1] == '=' then TrimPadding(text[..|text| - 1]) else text
  }

  function DecodeStandard(text: string): Option<string> {
    if text == "" || |text| > MAX_ENCODED_BLOB || exists c | c in text :: c in {'\r', '\n', '\t', ' '} then None
    else if '=' in text then
      var body := TrimPadding(text);
      if |text| % 4 == 0 && |text| - |body| <= 2 then DecodeRaw(body) else None
    else DecodeRaw(text)
  }

  function Value(bytes: string): nat {
    if bytes == "" then 0 else 256 * Value(bytes[..|bytes| - 1]) + bytes[|bytes| - 1] as nat
  }

  /** The blob of a key, whose own header must repeat the algorithm and be followed by data. */
  function DecodeHostKey(key: HostKey): Option<string> {
    if !ValidAlgorithm(key.algorithm) then None
    else match DecodeStandard(key.publicKey)
      case None => None
      case Some(blob) =>
        if |blob| > MAX_HOST_KEY_BLOB || |blob| < 4 then None
        else
          var length := Value(blob[..4]);
          if length == 0 || length > |blob| - 4 || blob[4..4 + length] != key.algorithm || |blob| == 4 + length then None
          else Some(blob)
  }

  predicate DistinctKeys(keys: seq<HostKey>) {
    forall i, j | 0 <= i < j < |keys| ::
      !(keys[i].algorithm == keys[j].algorithm && DecodeHostKey(keys[i]) == DecodeHostKey(keys[j]))
  }

  predicate AcceptedKeys(keys: seq<HostKey>) {
    && 1 <= |keys| <= MAX_HOST_KEYS
    && (forall i | 0 <= i < |keys| :: DecodeHostKey(keys[i]).Some?)
    && DistinctKeys(keys)
  }

  predicate KeyBefore(a: HostKey, b: HostKey) {
    if a.algorithm != b.algorithm then Before(a.algorithm, b.algorithm) else Before(a.publicKey, b.publicKey)
  }

  lemma KeyOrder(a: HostKey, b: HostKey, c: HostKey)
    ensures KeyBefore(a, b) ==> !KeyBefore(b, a)
    ensures KeyBefore(a, b) && KeyBefore(b, c) ==> KeyBefore(a, c)
    ensures a == b || KeyBefore(a, b) || KeyBefore(b, a)
  {
    BeforeTotal(a.algorithm, b.algorithm);
    BeforeTotal(a.publicKey, b.publicKey);
    if KeyBefore(a, b) {
      if a.algorithm != b.algorithm { BeforeAsymmetric(a.algorithm, b.algorithm); } else { BeforeAsymmetric(a.publicKey, b.publicKey); }
      if KeyBefore(b, c) {
        if a.algorithm != b.algorithm && b.algorithm != c.algorithm {
          BeforeTransitive(a.algorithm, b.algorithm, c.algorithm);
          BeforeAsymmetric(a.algorithm, c.algorithm);
        } else if a.algorithm == b.algorithm == c.algorithm {
          BeforeTransitive(a.publicKey, b.publicKey, c.publicKey);
        }
      }
    }
  }

  lemma KeysAreOrdered()
    ensures Order(KeyBefore)
  {
    hide KeyBefore;
    forall a: HostKey, b: HostKey
      ensures KeyBefore(a, b) ==> !KeyBefore(b, a)
      ensures a == b || KeyBefore(a, b) || KeyBefore(b, a)
    {
      KeyOrder(a, b, b);
    }
    forall a: HostKey, b: HostKey, c: HostKey
      ensures KeyBefore(a, b) && KeyBefore(b, c) ==> KeyBefore(a, c)
    {
      KeyOrder(a, b, c);
    }
  }

  function Insert(key: HostKey, sorted: seq<HostKey>): seq<HostKey> {
    if sorted == [] || !KeyBefore(sorted[0], key) then [key] + sorted else [sorted[0]] + Insert(key, sorted[1..])
  }

  /** The canonical list. */
  function Canonical(keys: seq<HostKey>): seq<HostKey> {
    if keys == [] then [] else Insert(keys[0], Canonical(keys[1..]))
  }

  lemma {:induction false} InsertSorted(key: HostKey, sorted: seq<HostKey>)
    requires Sorted(KeyBefore, sorted)
    ensures Sorted(KeyBefore, Insert(key, sorted)) && multiset(Insert(key, sorted)) == multiset{key} + multiset(sorted)
  {
    if sorted == [] {
    } else if !KeyBefore(sorted[0], key) {
      forall j | 0 < j < |sorted|
        ensures !KeyBefore(sorted[j], key)
      {
        KeyOrder(sorted[j], key, key);
        KeyOrder(sorted[0], sorted[j], key);
      }
      assert [key] + sorted == [key] + sorted;
    } else {
      var rest := Insert(key, sorted[1..]);
      InsertSorted(key, sorted[1..]);
      assert sorted == [sorted[0]] + sorted[1..];
      forall j | 0 <= j < |rest|
        ensures !KeyBefore(rest[j], sorted[0])
      {
        assert rest[j] in multiset(rest);
        if rest[j] == key {
          KeyOrder(sorted[0], key, key);
        } else {
          assert rest[j] in sorted[1..];
        }
      }
    }
  }

  lemma {:induction false} CanonicalIsSortedPermutation(keys: seq<HostKey>)
    ensures Sorted(KeyBefore, Canonical(keys)) && multiset(Canonical(keys)) == multiset(keys)
    ensures |Canonical(keys)| == |keys|
  {
    if keys != [] {
      CanonicalIsSortedPermutation(keys[1..]);
      InsertSorted(keys[0], Canonical(keys[1..]));
      assert keys == [keys[0]] + keys[1..];
    }
    assert |multiset(Canonical(keys))| == |multiset(keys)|;
  }

  /** canonicalHostKeys: reject, then sort a copy in place. */
  method CanonicalHostKeys(keys: seq<HostKey>) returns (canonical: seq<HostKey>, ok: bool)
    ensures ok <==> AcceptedKeys(keys)
    ensures ok ==> canonical == Canonical(keys)
  {
    hide DecodeHostKey, KeyBefore, Insert;
    canonical, ok := [], false;
    if |keys| == 0 || |keys| > MAX_HOST_KEYS {
      return;
    }
    var decoded: seq<string> := [];
    for i := 0 to |keys|
      invariant |decoded| == i && forall k | 0 <= k < i :: DecodeHostKey(keys[k]) == Some(decoded[k])
    {
      var blob := DecodeHostKey(keys[i]);
      if blob.None? {
        return;
      }
      decoded := decoded + [blob.value];
    }
    for i := 0 to |keys|
      invariant DistinctKeys(keys[..i])
    {
      for j := 0 to i
        invariant forall k | 0 <= k < j :: !(keys[k].algorithm == keys[i].algorithm && decoded[k] == decoded[i])
      {
        if keys[i].algorithm == keys[j].algorithm && decoded[i] == decoded[j] {
          return;
        }
      }
    }
    assert keys[..|keys|] == keys;
    KeysAreOrdered();
    OrderIsWeak(KeyBefore);
    canonical := SortedCopy(KeyBefore, keys);
    CanonicalIsSortedPermutation(keys);
    SortedIsUnique(KeyBefore, canonical, Canonical(keys));
    ok := true;
  }

  lemma AcceptanceIgnoresOrder(keys: seq<HostKey>, other: seq<HostKey>)
    requires multiset(keys) == multiset(other) && AcceptedKeys(keys)
    ensures AcceptedKeys(other)
  {
    assert |multiset(keys)| == |multiset(other)|;
    forall i | 0 <= i < |other|
      ensures DecodeHostKey(other[i]).Some?
    {
      assert other[i] in multiset(other);
      assert other[i] in keys;
    }
    forall i, j | 0 <= i < j < |other|
      ensures !(other[i].algorithm == other[j].algorithm && DecodeHostKey(other[i]) == DecodeHostKey(other[j]))
    {
      TwoPlaces(other, keys, i, j);
    }
  }

  lemma TwoPlaces(other: seq<HostKey>, keys: seq<HostKey>, i: nat, j: nat)
    requires multiset(other) == multiset(keys) && i < j < |other|
    ensures exists k, l :: 0 <= k < |keys| && 0 <= l < |keys| && k != l && keys[k] == other[i] && keys[l] == other[j]
  {
    var k := PlaceOf(other, keys, i);
    var otherRest, keysRest := other[..i] + other[i + 1..], keys[..k] + keys[k + 1..];
    WithoutOne(other, i);
    WithoutOne(keys, k);
    assert otherRest[j - 1] == other[j];
    var l := PlaceOf(otherRest, keysRest, j - 1);
    var place := if l < k then l else l + 1;
    assert keysRest[l] == keys[place];
  }

  lemma WithoutOne(keys: seq<HostKey>, k: nat)
    requires k < |keys|
    ensures multiset(keys[..k] + keys[k + 1..]) == multiset(keys) - multiset{keys[k]}
  {
    assert keys == keys[..k] + [keys[k]] + keys[k + 1..];
  }

  /** Every ordering of an accepted key list canonicalises to the same list. */
  lemma CanonicalIgnoresOrder(keys: seq<HostKey>, other: seq<HostKey>)
    requires multiset(keys) == multiset(other)
    ensures AcceptedKeys(keys) == AcceptedKeys(other) && Canonical(keys) == Canonical(other)
  {
    CanonicalIsSortedPermutation(keys);
    CanonicalIsSortedPermutation(other);
    KeysAreOrdered();
    SortedIsUnique(KeyBefore, Canonical(keys), Canonical(other));
    if AcceptedKeys(keys) { AcceptanceIgnoresOrder(keys, other); }
    if AcceptedKeys(other) { AcceptanceIgnoresOrder(other, keys); }
  }

  // ---- Sign and Verify ------------------------------------------------------------

  predicate ValidTargetID(id: string) {
    && 1 <= |id| <= 128
    && Alphanumeric(id[0])
    && forall i | 0 <= i < |id| :: Alphanumeric(id[i]) || id[i] in {'.', '_', '-'}
  }

  predicate ValidTuple(fabric: string, device: string, capability: string) {
    ValidTargetID(fabric) && ValidTargetID(device) && ValidTargetID(capability)
  }

  function Message(b: Binding): string {
    SigningBytes(b.(hostKeys := Canonical(b.hostKeys)))
  }

  /** Verify for a Shell Capability `capability` of Device `device` whose catalog
      identity is `key`. */
  predicate Verify(device: string, key: Key, capability: string, fabric: string, b: Binding) {
    && b.schema == BINDING_SCHEMA
    && ValidTuple(fabric, device, capability)
    && b.fabric == fabric && b.device == device && b.capability == capability
    && 1 <= b.version <= MAX_BINDING_VERSION
    && AcceptedKeys(b.hostKeys)
    && ValidKey(key) && DeviceID(key) == device
    && Verifies(key, Message(b), b.signature)
  }

  method VerifyBinding(device: string, key: Key, capability: string, fabric: string, b: Binding) returns (ok: bool)
    ensures ok <==> Verify(device, key, capability, fabric, b)
  {
    if b.schema != BINDING_SCHEMA || !ValidTuple(fabric, device, capability) {
      return false;
    }
    if b.fabric != fabric || b.device != device || b.capability != capability {
      return false;
    }
    if b.version == 0 || b.version > MAX_BINDING_VERSION {
      return false;
    }
    var canonical, accepted := CanonicalHostKeys(b.hostKeys);
    if !accepted || !ValidKey(key) || DeviceID(key) != device {
      return false;
    }
    var message := SigningInput(b.(hostKeys := canonical));
    ok := Verifies(key, message, b.signature);
  }

  method Sign(fabric: string, capability: string, version: nat, keys: seq<HostKey>, device: string, key: Key)
    returns (b: Binding, ok: bool)
    ensures ok <==> ValidKey(key) && device == DeviceID(key) && ValidTuple(fabric, device, capability)
                    && 1 <= version <= MAX_BINDING_VERSION && AcceptedKeys(keys)
    ensures ok ==> multiset(b.hostKeys) == multiset(keys) && b.version == version
    ensures ok ==> Verify(device, key, capability, fabric, b)
  {
    b, ok := Binding("", "", "", "", 0, [], Undecodable("")), false;
    if !ValidKey(key) || device != DeviceID(key) || !ValidTuple(fabric, device, capability) {
      return;
    }
    if version == 0 || version > MAX_BINDING_VERSION {
      return;
    }
    var canonical, accepted := CanonicalHostKeys(keys);
    if !accepted {
      return;
    }
    b := Binding(BINDING_SCHEMA, fabric, device, capability, version, canonical, Undecodable(""));
    var message := SigningInput(b);
    b, ok := b.(signature := SignedBy(key, message)), true;
    CanonicalIsSortedPermutation(keys);
    CanonicalIgnoresOrder(keys, canonical);
  }

  /** Verify's answer does not depend on the order in which host keys are listed. */
  lemma VerifyIgnoresKeyOrder(device: string, key: Key, capability: string, fabric: string, b: Binding, reordered: seq<HostKey>)
    requires multiset(reordered) == multiset(b.hostKeys)
    ensures Verify(device, key, capability, fabric, b) == Verify(device, key, capability, fabric, b.(hostKeys := reordered))
  {
    CanonicalIgnoresOrder(b.hostKeys, reordered);
  }

  lemma AcceptedKeysAreShort(keys: seq<HostKey>)
    requires AcceptedKeys(keys)
    ensures ShortKeys(keys)
  {
    forall i | 0 <= i < |keys|
      ensures |keys[i].algorithm| < TWO_32 && |keys[i].publicKey| < TWO_32
    {
      assert DecodeHostKey(keys[i]).Some?;
    }
  }

  /** A signature vouches for one binding only: two bindings that verify with the same
      signature agree on every field and on the key list up to order. */
  lemma SignatureFixesBinding(device: string, key: Key, capability: string, fabric: string, b: Binding,
                              device': string, key': Key, capability': string, fabric': string, c: Binding)
    requires Verify(device, key, capability, fabric, b) && Verify(device', key', capability', fabric', c)
    requires b.signature == c.signature
    ensures b == c.(hostKeys := b.hostKeys) && multiset(b.hostKeys) == multiset(c.hostKeys)
    ensures key == key' && device == device' && capability == capability' && fabric == fabric'
  {
    CanonicalIsSortedPermutation(b.hostKeys);
    CanonicalIsSortedPermutation(c.hostKeys);
    CanonicalIgnoresOrder(b.hostKeys, Canonical(b.hostKeys));
    CanonicalIgnoresOrder(c.hostKeys, Canonical(c.hostKeys));
    AcceptedKeysAreShort(Canonical(b.hostKeys));
    AcceptedKeysAreShort(Canonical(c.hostKeys));
    SigningBytesInjective(b.(hostKeys := Canonical(b.hostKeys)), c.(hostKeys := Canonical(c.hostKeys)));
  }
}
