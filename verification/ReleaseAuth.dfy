/** Publisher-signed releases and the durable replay checkpoint they are accepted against. */
module ReleaseAuth {
  import opened Common
  import opened Identity

  const DAY := 24 * 3600 * 1_000_000_000
  const MAX_ARTIFACT := 0x8000_0000
  const MAX_ENVELOPE := 32768
  const MAX_PAYLOAD := 16384

  predicate LowerHex(text: string) {
    |text| == 64 && forall i | 0 <= i < |text| :: '0' <= text[i] <= '9' || 'a' <= text[i] <= 'f'
  }

  /** The hexadecimal SHA-256 of a payload; different payloads have different digests. */
  type Digest = d: string | LowerHex(d) witness seq(64, _ => '0')

  datatype Schema = V1 | V2 | OtherSchema
  datatype Artifact = Artifact(name: string, size: int, sha256: string)
  datatype Compatibility = Compatibility(dataEpoch: nat, protocolMin: nat, protocolMax: nat)

  /** `versionShape` says whether the version text has the release-version form; times
      are nanoseconds with 0 for the zero time. */
  datatype Metadata = Metadata(schema: Schema, product: string, version: string, versionShape: bool, channel: string,
                               platform: string, sequence: nat, issuedAt: int, expiresAt: int,
                               artifacts: seq<Artifact>, compatibility: Option<Compatibility>)

  /** A payload is known by its digest; `metadata` is None when it is not strict JSON. */
  datatype Payload = Payload(digest: Digest, length: nat, metadata: Option<Metadata>)
  datatype Document = Document(length: nat, envelope: bool, payload: Option<Payload>, signature: Signature<Payload>)

  datatype Checkpoint = Checkpoint(sequence: nat, digest: string)
  datatype Policy = Policy(publicKey: Key, channel: string, platform: string, previous: Checkpoint, now: int)
  datatype Release = Release(metadata: Metadata, checkpoint: Checkpoint)
  datatype Fault =
    | TrustStateInvalid | TrustStateUnavailable | TrustStateWriteFailed
    | EnvelopeInvalid | SignatureInvalid | MetadataInvalid | PolicyMismatch | TimeInvalid | ReplayRejected
  datatype Verdict = Accepted(release: Release) | Rejected(fault: Fault)

  // ---- metadata -------------------------------------------------------------------

  predicate ValidChannel(v: string) { v == "stable" || v == "preview" }
  predicate ValidPlatform(v: string) { v == "windows-x64" || v == "linux-x64" }

  function Upper(text: string): string {
    seq(|text|, i requires 0 <= i < |text| => if 'a' <= text[i] <= 'z' then text[i] - 'a' + 'A' else text[i])
  }

  predicate NameChar(c: char) {
    'A' <= c <= 'Z' || 'a' <= c <= 'z' || '0' <= c <= '9'
  }

  predicate NameShape(name: string) {
    && 1 <= |name| <= 128 && NameChar(name[0])
    && forall i | 0 <= i < |name| :: NameChar(name[i]) || name[i] in {'.', '_', '-'}
  }

  function BeforeDot(name: string): string {
    if name == "" || name[0] == '.' then "" else [name[0]] + BeforeDot(name[1..])
  }

  /** Device names Windows reserves, whatever their extension. */
  predicate Reserved(upper: string) {
    var base := BeforeDot(upper);
    || base in {"CON", "PRN", "AUX", "NUL"}
    || (|base| == 4 && base[..3] in {"COM", "LPT"} && '0' <= base[3] <= '9')
  }

  predicate ValidArtifact(a: Artifact) {
    && NameShape(a.name) && a.name[|a.name| - 1] != '.' && !Reserved(Upper(a.name))
    && 1 <= a.size <= MAX_ARTIFACT && LowerHex(a.sha256)
  }

  predicate ValidHeader(m: Metadata) {
    && m.schema != OtherSchema && m.product == "PF Remote" && |m.version| <= 80 && m.versionShape
    && ValidChannel(m.channel) && ValidPlatform(m.platform) && (m.channel == "stable" ==> '-' !in m.version)
    && m.sequence > 0 && m.issuedAt != 0 && m.issuedAt < m.expiresAt <= m.issuedAt + 90 * DAY
    && 1 <= |m.artifacts| <= 16
    && (m.schema == V1 ==> m.compatibility.None?)
    && (m.schema == V2 ==> m.compatibility.Some? && m.compatibility.value.dataEpoch > 0
                           && 0 < m.compatibility.value.protocolMin <= m.compatibility.value.protocolMax)
  }

  /** Artifact names must differ even on a case-insensitive file system. */
  predicate ValidMetadata(m: Metadata) {
    && ValidHeader(m)
    && (forall i | 0 <= i < |m.artifacts| :: ValidArtifact(m.artifacts[i]))
    && (forall i, j | 0 <= i < j < |m.artifacts| :: Upper(m.artifacts[i].name) != Upper(m.artifacts[j].name))
  }

  method CheckMetadata(m: Metadata) returns (ok: bool)
    ensures ok <==> ValidMetadata(m)
  {
    hide ValidArtifact, Upper, ValidHeader;
    if !ValidHeader(m) {
      return false;
    }
    var seen: set<string> := {};
    for i := 0 to |m.artifacts|
      invariant seen == set k | 0 <= k < i :: Upper(m.artifacts[k].name)
      invariant forall k | 0 <= k < i :: ValidArtifact(m.artifacts[k])
      invariant forall j, k | 0 <= j < k < i :: Upper(m.artifacts[j].name) != Upper(m.artifacts[k].name)
    {
      var name := Upper(m.artifacts[i].name);
      if !ValidArtifact(m.artifacts[i]) || name in seen {
        return false;
      }
      seen := seen + {name};
    }
    ok := true;
  }

  // ---- Verify ---------------------------------------------------------------------

  predicate UsablePolicy(policy: Policy) {
    && ValidKey(policy.publicKey) && policy.now != 0
    && ValidChannel(policy.channel) && ValidPlatform(policy.platform)
    && (policy.previous.sequence == 0 ==> policy.previous.digest == "")
    && (policy.previous.sequence != 0 ==> LowerHex(policy.previous.digest))
  }

  predicate Authentic(document: Document, key: Key) {
    && document.payload.Some? && 1 <= document.payload.value.length <= MAX_PAYLOAD
    && Verifies(key, document.payload.value, document.signature)
  }

  /** Authenticity is settled before the payload is interpreted. */
  function Verify(document: Document, policy: Policy): Verdict {
    if !UsablePolicy(policy) then Rejected(TrustStateInvalid)
    else if document.length == 0 || document.length > MAX_ENVELOPE || !document.envelope then Rejected(EnvelopeInvalid)
    else if !Authentic(document, policy.publicKey) then Rejected(SignatureInvalid)
    else
      var payload := document.payload.value;
      if payload.metadata.None? || !ValidMetadata(payload.metadata.value) then Rejected(MetadataInvalid)
      else
        var m := payload.metadata.value;
        if m.channel != policy.channel || m.platform != policy.platform then Rejected(PolicyMismatch)
        else if m.issuedAt > policy.now || m.expiresAt <= policy.now then Rejected(TimeInvalid)
        else if m.sequence < policy.previous.sequence
             || (m.sequence == policy.previous.sequence && payload.digest != policy.previous.digest) then
          Rejected(ReplayRejected)
        else Accepted(Release(m, Checkpoint(m.sequence, payload.digest)))
  }

  /** What an accepted release is known to be, and that nothing else stops one. */
  lemma AcceptedExactly(document: Document, policy: Policy)
    ensures Verify(document, policy).Accepted? <==>
              && UsablePolicy(policy)
              && 0 < document.length <= MAX_ENVELOPE && document.envelope
              && Authentic(document, policy.publicKey)
              && document.payload.value.metadata.Some?
              && (var m := document.payload.value.metadata.value;
                  && ValidMetadata(m) && m.channel == policy.channel && m.platform == policy.platform
                  && m.issuedAt <= policy.now < m.expiresAt
                  && (m.sequence > policy.previous.sequence
                      || (m.sequence == policy.previous.sequence && document.payload.value.digest == policy.previous.digest)))
    ensures Verify(document, policy).Accepted? ==>
              Verify(document, policy).release.checkpoint
                == Checkpoint(document.payload.value.metadata.value.sequence, document.payload.value.digest)
  {
  }

  // ---- what a verdict means, in plain terms --------------------------------------------

  predicate Letter(c: char) {
    'a' <= c <= 'z' || 'A' <= c <= 'Z'
  }

  /** Equal up to the case of ASCII letters. */
  predicate SameCharacter(c: char, d: char) {
    c == d || (Letter(c) && Letter(d) && (c as int - d as int == 32 || d as int - c as int == 32))
  }

  predicate SameName(a: string, b: string) {
    |a| == |b| && forall i | 0 <= i < |a| :: SameCharacter(a[i], b[i])
  }

  /** The name is this word, in any case, alone or before a dot. */
  predicate Names(name: string, word: string) {
    && |word| <= |name| && SameName(name[..|word|], word)
    && (|name| == |word| || name[|word|] == '.')
  }

  predicate DeviceWord(word: string) {
    || word in {"CON", "PRN", "AUX", "NUL"}
    || (|word| == 4 && word[..3] in {"COM", "LPT"} && '0' <= word[3] <= '9')
  }

  ghost predicate PlainArtifact(a: Artifact) {
    && 1 <= |a.name| <= 128 && a.name[0] !in "._-" && a.name[|a.name| - 1] != '.'
    && (forall i | 0 <= i < |a.name| :: Letter(a.name[i]) || '0' <= a.name[i] <= '9' || a.name[i] in "._-")
    && !(exists word :: DeviceWord(word) && Names(a.name, word))
    && 1 <= a.size <= 2_147_483_648
    && |a.sha256| == 64 && forall i | 0 <= i < 64 :: a.sha256[i] in "0123456789abcdef"
  }

  ghost predicate PlainMetadata(m: Metadata) {
    && m.schema in {V1, V2} && m.product == "PF Remote" && |m.version| <= 80 && m.versionShape
    && m.channel in {"stable", "preview"} && m.platform in {"windows-x64", "linux-x64"} && (m.channel == "stable" ==> '-' !in m.version)
    && m.sequence >= 1 && m.issuedAt != 0 && m.issuedAt < m.expiresAt && m.expiresAt - m.issuedAt <= 7_776_000_000_000_000
    && (m.compatibility.Some? <==> m.schema == V2)
    && (m.compatibility.Some? ==> m.compatibility.value.dataEpoch >= 1
                                  && 1 <= m.compatibility.value.protocolMin <= m.compatibility.value.protocolMax)
    && 1 <= |m.artifacts| <= 16
    && (forall a | a in m.artifacts :: PlainArtifact(a))
    && forall i, j | 0 <= i < j < |m.artifacts| :: !SameName(m.artifacts[i].name, m.artifacts[j].name)
  }

  function UpperChar(c: char): char {
    if 'a' <= c <= 'z' then c - 'a' + 'A' else c
  }

  lemma SameCharacters(c: char, d: char)
    ensures UpperChar(c) == UpperChar(d) <==> SameCharacter(c, d)
  {
  }

  lemma SameNames(a: string, b: string)
    ensures Upper(a) == Upper(b) <==> SameName(a, b)
  {
    assert |Upper(a)| == |a| && |Upper(b)| == |b|;
    forall i | 0 <= i < |a| && i < |b|
      ensures Upper(a)[i] == Upper(b)[i] <==> SameCharacter(a[i], b[i])
    {
      SameCharacters(a[i], b[i]);
    }
    if Upper(a) == Upper(b) {
      assert forall i | 0 <= i < |a| :: Upper(a)[i] == Upper(b)[i];
    }
  }

  lemma {:induction false} BeforeDotMeans(text: string)
    ensures |BeforeDot(text)| <= |text| && BeforeDot(text) == text[..|BeforeDot(text)|] && '.' !in BeforeDot(text)
    ensures |BeforeDot(text)| == |text| || text[|BeforeDot(text)|] == '.'
  {
    if text != "" && text[0] != '.' {
      BeforeDotMeans(text[1..]);
      assert text == [text[0]] + text[1..];
    }
  }

  /** The part before the dot is the longest one without a dot. */
  lemma {:induction false} BeforeDotIs(text: string, word: string)
    requires '.' !in word && |word| <= |text| && text[..|word|] == word && (|text| == |word| || text[|word|] == '.')
    ensures BeforeDot(text) == word
  {
    if word != "" {
      assert text[0] == word[0];
      BeforeDotIs(text[1..], word[1..]);
      assert word == [word[0]] + word[1..];
    }
  }

  lemma WordIsUpper(word: string)
    requires DeviceWord(word)
    ensures Upper(word) == word && '.' !in word
  {
    assert word == word[..|word|];
    if word !in {"CON", "PRN", "AUX", "NUL"} {
      assert word == word[..3] + [word[3]];
      assert Upper(word) == Upper(word[..3]) + [word[3]];
      assert Upper("COM") == "COM" && Upper("LPT") == "LPT";
    } else {
      assert Upper("CON") == "CON" && Upper("PRN") == "PRN" && Upper("AUX") == "AUX" && Upper("NUL") == "NUL";
    }
  }

  lemma ReservedMeans(name: string)
    ensures Reserved(Upper(name)) <==> exists word :: DeviceWord(word) && Names(name, word)
  {
    var base := BeforeDot(Upper(name));
    BeforeDotMeans(Upper(name));
    if Reserved(Upper(name)) {
      assert DeviceWord(base);
      WordIsUpper(base);
      SameNames(name[..|base|], base);
      assert Upper(name[..|base|]) == Upper(name)[..|base|];
      assert Names(name, base);
    }
    if word :| DeviceWord(word) && Names(name, word) {
      WordIsUpper(word);
      SameNames(name[..|word|], word);
      assert Upper(name[..|word|]) == Upper(name)[..|word|];
      BeforeDotIs(Upper(name), word);
    }
  }

  lemma ArtifactMeans(a: Artifact)
    ensures ValidArtifact(a) <==> PlainArtifact(a)
  {
    hide Reserved, DeviceWord, Names, Upper;
    ReservedMeans(a.name);
    assert forall c: char :: c in "._-" <==> c in {'.', '_', '-'};
    assert forall c: char :: c in "0123456789abcdef" <==> '0' <= c <= '9' || 'a' <= c <= 'f' by {
      HexDigits();
    }
  }

  lemma HexDigits()
    ensures forall c: char :: c in "0123456789abcdef" <==> '0' <= c <= '9' || 'a' <= c <= 'f'
  {
    var digits := "0123456789abcdef";
    forall c: char | '0' <= c <= '9' || 'a' <= c <= 'f'
      ensures c in digits
    {
      assert if c <= '9' then digits[c as int - 48] == c else digits[c as int - 87] == c;
    }
  }

  lemma MetadataMeans(m: Metadata)
    ensures ValidMetadata(m) <==> PlainMetadata(m)
  {
    hide ValidArtifact, PlainArtifact, Upper, SameName;
    forall a | a in m.artifacts
      ensures ValidArtifact(a) <==> PlainArtifact(a)
    {
      ArtifactMeans(a);
    }
    forall i, j | 0 <= i < j < |m.artifacts|
      ensures Upper(m.artifacts[i].name) == Upper(m.artifacts[j].name) <==> SameName(m.artifacts[i].name, m.artifacts[j].name)
    {
      SameNames(m.artifacts[i].name, m.artifacts[j].name);
    }
    assert forall i | 0 <= i < |m.artifacts| :: m.artifacts[i] in m.artifacts;
  }

  /** An accepted release: signed by the publisher, for this channel and platform, current
      at `clock`, and no older than the checkpoint. */
  ghost predicate Trusted(publisher: Key, channel: string, platform: string, previous: Checkpoint, clock: int, document: Document,
                          release: Release) {
    && document.payload.Some? && document.signature == SignedBy(publisher, document.payload.value)
    && 1 <= document.length <= 32768 && document.envelope && 1 <= document.payload.value.length <= 16384
    && document.payload.value.metadata == Some(release.metadata) && PlainMetadata(release.metadata)
    && release.metadata.channel == channel && release.metadata.platform == platform
    && release.metadata.issuedAt <= clock < release.metadata.expiresAt
    && release.checkpoint == Checkpoint(release.metadata.sequence, document.payload.value.digest)
    && (previous.sequence < release.metadata.sequence || previous == release.checkpoint)
  }

  /** Why a document is rejected. */
  ghost predicate Untrusted(publisher: Key, channel: string, platform: string, previous: Checkpoint, clock: int, document: Document,
                            fault: Fault) {
    match fault
    case TrustStateInvalid =>
      || |publisher| != 32 || clock == 0 || channel !in {"stable", "preview"} || platform !in {"windows-x64", "linux-x64"}
      || (previous.sequence == 0 && previous.digest != "") || (previous.sequence != 0 && !LowerHex(previous.digest)) || !ValidKey(publisher)
    case EnvelopeInvalid => document.length == 0 || document.length > 32768 || !document.envelope
    case SignatureInvalid =>
      || document.payload.None? || document.payload.value.length == 0 || document.payload.value.length > 16384
      || document.signature != SignedBy(publisher, document.payload.value)
    case MetadataInvalid =>
      document.payload.Some? && (document.payload.value.metadata.None? || !PlainMetadata(document.payload.value.metadata.value))
    case PolicyMismatch =>
      && document.payload.Some? && document.payload.value.metadata.Some?
      && (document.payload.value.metadata.value.channel != channel || document.payload.value.metadata.value.platform != platform)
    case TimeInvalid =>
      && document.payload.Some? && document.payload.value.metadata.Some?
      && (document.payload.value.metadata.value.issuedAt > clock || document.payload.value.metadata.value.expiresAt <= clock)
    case ReplayRejected =>
      && document.payload.Some? && document.payload.value.metadata.Some?
      && (document.payload.value.metadata.value.sequence < previous.sequence
          || (document.payload.value.metadata.value.sequence == previous.sequence && document.payload.value.digest != previous.digest))
    case _ => false
  }

  lemma VerdictMeans(document: Document, policy: Policy)
    ensures match Verify(document, policy)
            case Accepted(release) =>
              Trusted(policy.publicKey, policy.channel, policy.platform, policy.previous, policy.now, document, release)
            case Rejected(fault) =>
              Untrusted(policy.publicKey, policy.channel, policy.platform, policy.previous, policy.now, document, fault)
  {
    hide ValidMetadata, PlainMetadata, LowerHex, ValidKey;
    if document.payload.Some? && document.payload.value.metadata.Some? {
      MetadataMeans(document.payload.value.metadata.value);
    }
  }

  // ---- the trust store ------------------------------------------------------------

  /** The single durable row; `schema` says whether its schema version is 1. */
  datatype Row = Row(schema: bool, publisher: Key, channel: string, platform: string, previous: Checkpoint, observed: Option<int>)

  predicate Matches(row: Row, policy: Policy) {
    row.schema && row.publisher == policy.publicKey && row.channel == policy.channel && row.platform == policy.platform
  }

  /** The clock can only be moved forward. */
  function Effective(row: Row, now: int): int {
    if row.observed.Some? && row.observed.value > now then row.observed.value else now
  }

  function VerdictAgainst(row: Row, document: Document, policy: Policy): Verdict {
    Verify(document, policy.(previous := row.previous, now := Effective(row, policy.now)))
  }

  function Recorded(row: Row, document: Document, policy: Policy): Row {
    var verdict := VerdictAgainst(row, document, policy);
    row.(previous := if verdict.Accepted? then verdict.release.checkpoint else row.previous,
         observed := Some(Effective(row, policy.now)))
  }

  /** The recorded clock is the later one of the clock and what was recorded before. */
  predicate Clocked(before: Row, now: int, after: Row) {
    && after.observed.Some? && now <= after.observed.value && (before.observed.Some? ==> before.observed.value <= after.observed.value)
    && (after.observed.value == now || after.observed == before.observed)
  }

  lemma VerdictOfRow(row: Row, document: Document, policy: Policy)
    requires Matches(row, policy)
    ensures Clocked(row, policy.now, Recorded(row, document, policy))
    ensures match VerdictAgainst(row, document, policy)
            case Accepted(release) =>
              && Trusted(row.publisher, row.channel, row.platform, row.previous, Effective(row, policy.now), document, release)
              && Recorded(row, document, policy).previous == release.checkpoint
            case Rejected(fault) =>
              && Untrusted(row.publisher, row.channel, row.platform, row.previous, Effective(row, policy.now), document, fault)
              && Recorded(row, document, policy).previous == row.previous
  {
    hide Verify, Trusted, Untrusted;
    VerdictMeans(document, policy.(previous := row.previous, now := Effective(row, policy.now)));
  }

  class Store {
    var row: Row

    constructor Bootstrap(key: Key, channel: string, platform: string)
      requires ValidKey(key) && ValidChannel(channel) && ValidPlatform(platform)
      ensures row == Row(true, key, channel, platform, Checkpoint(0, ""), None)
    {
      row := Row(true, key, channel, platform, Checkpoint(0, ""), None);
    }

    /** One transaction. `begins` and `commits` are whether SQLite let it begin and commit. */
    method Accept(document: Document, policy: Policy, begins: bool, commits: bool) returns (verdict: Verdict)
      modifies this
      ensures policy.now == 0 ==> verdict == Rejected(TrustStateInvalid) && row == old(row)
      ensures policy.now != 0 && !begins ==> verdict == Rejected(TrustStateUnavailable) && row == old(row)
      ensures policy.now != 0 && begins && !Matches(old(row), policy) ==> verdict == Rejected(TrustStateInvalid) && row == old(row)
      ensures policy.now != 0 && begins && Matches(old(row), policy) && !commits ==> verdict == Rejected(TrustStateWriteFailed) && row == old(row)
      ensures policy.now != 0 && begins && Matches(old(row), policy) && commits ==>
                verdict == VerdictAgainst(old(row), document, policy) && row == Recorded(old(row), document, policy)
      ensures row == old(row).(previous := row.previous, observed := row.observed)
      ensures verdict.Accepted? ==>
                && Clocked(old(row), policy.now, row)
                && Trusted(old(row).publisher, old(row).channel, old(row).platform, old(row).previous, row.observed.value, document,
                           verdict.release)
                && row.previous == verdict.release.checkpoint && begins && commits
                && row.schema && row.publisher == policy.publicKey && row.channel == policy.channel && row.platform == policy.platform
      ensures verdict.Rejected? ==> row.previous == old(row).previous
      ensures verdict.Rejected? && row.observed.Some? ==>
                || row == old(row)
                || Untrusted(row.publisher, row.channel, row.platform, row.previous, row.observed.value, document, verdict.fault)
    {
      if Matches(row, policy) {
        VerdictOfRow(row, document, policy);
      }
      if policy.now == 0 {
        return Rejected(TrustStateInvalid);
      }
      if !begins {
        return Rejected(TrustStateUnavailable);
      }
      if !row.schema || row.publisher != policy.publicKey || row.channel != policy.channel || row.platform != policy.platform {
        return Rejected(TrustStateInvalid);
      }
      var checked := policy;
      if row.observed.Some? {
        var last := row.observed.value;
        if last > checked.now {
          checked := checked.(now := last);
        }
      }
      var previous := row.previous;
      checked := checked.(previous := previous);
      verdict := Verify(document, checked);
      var next := previous;
      if verdict.Accepted? {
        next := verdict.release.checkpoint;
      }
      if !commits {
        return Rejected(TrustStateWriteFailed);
      }
      row := row.(previous := next, observed := Some(checked.now));
    }
  }

  // ---- whole runs -----------------------------------------------------------------

  datatype Call = Call(document: Document, policy: Policy, begins: bool, commits: bool)

  predicate Commits(row: Row, call: Call) {
    call.policy.now != 0 && call.begins && call.commits && Matches(row, call.policy)
  }

  function After(row: Row, call: Call): Row {
    if Commits(row, call) then Recorded(row, call.document, call.policy) else row
  }

  /** The row before call number `n`. */
  function RowAt(row: Row, calls: seq<Call>, n: nat): Row
    requires n <= |calls|
  {
    if n == 0 then row else After(RowAt(row, calls, n - 1), calls[n - 1])
  }

  predicate AcceptedAt(row: Row, calls: seq<Call>, n: nat)
    requires n < |calls|
  {
    var before := RowAt(row, calls, n);
    Commits(before, calls[n]) && VerdictAgainst(before, calls[n].document, calls[n].policy).Accepted?
  }

  function ReleaseAt(row: Row, calls: seq<Call>, n: nat): Release
    requires n < |calls| && AcceptedAt(row, calls, n)
  {
    VerdictAgainst(RowAt(row, calls, n), calls[n].document, calls[n].policy).release
  }

  /** `later` is at least as new as `earlier`, and the same release when equally numbered. */
  predicate NotOlder(earlier: Checkpoint, later: Checkpoint) {
    earlier.sequence <= later.sequence && (earlier.sequence == later.sequence ==> earlier.digest == later.digest)
  }

  lemma OneCallAdvances(row: Row, call: Call)
    ensures NotOlder(row.previous, After(row, call).previous)
    ensures row.observed.Some? ==> After(row, call).observed.Some? && row.observed.value <= After(row, call).observed.value
    ensures Matches(row, call.policy) == Matches(After(row, call), call.policy)
  {
    hide ValidMetadata, UsablePolicy, Authentic;
  }

  lemma {:induction false} RunAdvances(row: Row, calls: seq<Call>, i: nat, j: nat)
    requires i <= j <= |calls|
    ensures NotOlder(RowAt(row, calls, i).previous, RowAt(row, calls, j).previous)
    ensures RowAt(row, calls, i).observed.Some? ==>
              RowAt(row, calls, j).observed.Some? && RowAt(row, calls, i).observed.value <= RowAt(row, calls, j).observed.value
    decreases j - i
  {
    hide After;
    if i < j {
      RunAdvances(row, calls, i, j - 1);
      OneCallAdvances(RowAt(row, calls, j - 1), calls[j - 1]);
    }
  }

  lemma AcceptedIsRecorded(row: Row, calls: seq<Call>, n: nat)
    requires n < |calls| && AcceptedAt(row, calls, n)
    ensures RowAt(row, calls, n + 1).previous == ReleaseAt(row, calls, n).checkpoint
  {
    hide Verify;
  }

  /** Over any calls with any clocks: accepted sequences never decrease, and one
      sequence number never stands for two payloads. */
  lemma NoRollback(row: Row, calls: seq<Call>, i: nat, j: nat)
    requires i < j < |calls| && AcceptedAt(row, calls, i) && AcceptedAt(row, calls, j)
    ensures NotOlder(ReleaseAt(row, calls, i).checkpoint, ReleaseAt(row, calls, j).checkpoint)
  {
    hide VerdictAgainst, After;
    AcceptedIsRecorded(row, calls, i);
    AcceptedIsRecorded(row, calls, j);
    RunAdvances(row, calls, i + 1, j + 1);
  }

  /** No accepted release had expired at the time recorded by any call so far, even one
      whose document was rejected: setting the clock back does not renew anything. */
  lemma NoRenewal(row: Row, calls: seq<Call>, i: nat, j: nat)
    requires i <= j < |calls| && AcceptedAt(row, calls, j)
    requires Commits(RowAt(row, calls, i), calls[i])
    ensures RowAt(row, calls, i + 1).observed.Some?
    ensures RowAt(row, calls, i + 1).observed.value < ReleaseAt(row, calls, j).metadata.expiresAt
    ensures calls[i].policy.now < ReleaseAt(row, calls, j).metadata.expiresAt
    ensures calls[j].policy.now < ReleaseAt(row, calls, j).metadata.expiresAt
  {
    var at := RowAt(row, calls, j);
    RecordsItsClock(RowAt(row, calls, i), calls[i]);
    if i < j {
      RunAdvances(row, calls, i + 1, j);
    }
    AcceptedExactly(calls[j].document, calls[j].policy.(previous := at.previous, now := Effective(at, calls[j].policy.now)));
    UnexpiredWhenAccepted(at, calls[j]);
  }

  lemma RecordsItsClock(row: Row, call: Call)
    requires Commits(row, call)
    ensures After(row, call).observed == Some(Effective(row, call.policy.now))
    ensures call.policy.now <= Effective(row, call.policy.now)
  {
    hide Verify;
  }

  lemma UnexpiredWhenAccepted(row: Row, call: Call)
    requires VerdictAgainst(row, call.document, call.policy).Accepted?
    ensures Effective(row, call.policy.now) < VerdictAgainst(row, call.document, call.policy).release.metadata.expiresAt
    ensures row.observed.Some? ==> row.observed.value < VerdictAgainst(row, call.document, call.policy).release.metadata.expiresAt
  {
    hide ValidMetadata, UsablePolicy, Authentic;
  }

  /** Every release accepted in a run was signed by the publisher the store was set up
      with, is for its channel and platform, and was current at the recorded clock. */
  lemma AcceptedIsTrusted(row: Row, calls: seq<Call>, n: nat)
    requires n < |calls| && AcceptedAt(row, calls, n)
    ensures var before, after, call := RowAt(row, calls, n), RowAt(row, calls, n + 1), calls[n];
            && Clocked(before, call.policy.now, after)
            && Trusted(row.publisher, row.channel, row.platform, before.previous, after.observed.value, call.document,
                       ReleaseAt(row, calls, n))
  {
    hide VerdictAgainst, Trusted, Untrusted, Clocked;
    SamePublisher(row, calls, n);
    VerdictOfRow(RowAt(row, calls, n), calls[n].document, calls[n].policy);
    RecordsItsClock(RowAt(row, calls, n), calls[n]);
  }

  lemma {:induction false} SamePublisher(row: Row, calls: seq<Call>, n: nat)
    requires n <= |calls|
    ensures var at := RowAt(row, calls, n);
            at.schema == row.schema && at.publisher == row.publisher && at.channel == row.channel && at.platform == row.platform
  {
    hide VerdictAgainst;
    if n > 0 {
      SamePublisher(row, calls, n - 1);
    }
  }

  /** The checkpoint never locks out its own release: presenting it again before it
      expires is accepted and leaves the checkpoint as it is. */
  lemma SameReleaseAgain(row: Row, document: Document, policy: Policy, later: int)
    requires Matches(row, policy) && policy.now != 0 && later != 0
    requires VerdictAgainst(row, document, policy).Accepted?
    requires later < document.payload.value.metadata.value.expiresAt
    ensures var next := Recorded(row, document, policy);
            VerdictAgainst(next, document, policy.(now := later)) == VerdictAgainst(row, document, policy)
            && Recorded(next, document, policy.(now := later)).previous == next.previous
  {
    hide ValidMetadata;
    var next := Recorded(row, document, policy);
    var release := VerdictAgainst(row, document, policy).release;
    assert next.previous == release.checkpoint;
    AcceptedExactly(document, policy.(previous := row.previous, now := Effective(row, policy.now)));
    SequencePositive(release.metadata);
    assert LowerHex(document.payload.value.digest);
    AcceptedExactly(document, policy.(previous := next.previous, now := Effective(next, later)));
  }

  lemma SequencePositive(m: Metadata)
    ensures ValidMetadata(m) ==> m.sequence > 0
  {
  }
}
