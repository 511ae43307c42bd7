/** The two wire formats of a Shell binding, stated from the reader's side: what is signed can
    be read back field by field, and a host key is accepted exactly if its text is the standard
    base64 of a blob that starts with its own algorithm. */
module ShellBindingFormat {
  import opened Common
  import opened Identity
  import opened Sorting
  import opened ShellBinding

  // ---- numbers ----------------------------------------------------------------------

  predicate Bytes(text: string) {
    forall i | 0 <= i < |text| :: text[i] as int < 256
  }

  lemma {:induction false} NumberReadsBack(n: nat, width: nat)
    requires n < Power256(width)
    ensures Value(BigEndian(n, width)) == n && Bytes(BigEndian(n, width))
  {
    if width > 0 {
      NumberReadsBack(n / 256, width - 1);
      var bytes := BigEndian(n, width);
      assert bytes[..|bytes| - 1] == BigEndian(n / 256, width - 1);
    }
  }

  lemma {:induction false} NumberOf(bytes: string)
    requires Bytes(bytes)
    ensures Value(bytes) < Power256(|bytes|) && BigEndian(Value(bytes), |bytes|) == bytes
  {
    if bytes != "" {
      var init := bytes[..|bytes| - 1];
      NumberOf(init);
      assert Value(bytes) / 256 == Value(init) && Value(bytes) % 256 == bytes[|bytes| - 1] as nat;
    }
  }

  // ---- reading back what is signed --------------------------------------------------

  /** A length of four bytes, then that many bytes. */
  function ReadField(bytes: string): Option<(string, string)> {
    if |bytes| < 4 || |bytes| - 4 < Value(bytes[..4]) then None
    else Some((bytes[4..4 + Value(bytes[..4])], bytes[4 + Value(bytes[..4])..]))
  }

  function ReadNumber(bytes: string, width: nat): Option<(nat, string)> {
    if |bytes| < width then None else Some((Value(bytes[..width]), bytes[width..]))
  }

  function ReadKeys(bytes: string, n: nat): Option<seq<HostKey>> {
    if n == 0 then if bytes == "" then Some([]) else None
    else match ReadField(bytes)
      case None => None
      case Some((algorithm, afterAlgorithm)) =>
        match ReadField(afterAlgorithm)
        case None => None
        case Some((publicKey, afterKey)) =>
          match ReadKeys(afterKey, n - 1)
          case None => None
          case Some(keys) => Some([HostKey(algorithm, publicKey)] + keys)
  }

  function ReadCounted(bytes: string): Option<seq<HostKey>> {
    match ReadNumber(bytes, 4)
    case None => None
    case Some((count, rest)) => ReadKeys(rest, count)
  }

  /** `n` text fields one after another, and what follows them. */
  function ReadFields(bytes: string, n: nat): Option<(seq<string>, string)> {
    if n == 0 then Some(([], bytes))
    else match ReadField(bytes)
      case None => None
      case Some((field, rest)) =>
        match ReadFields(rest, n - 1)
        case None => None
        case Some((fields, after)) => Some(([field] + fields, after))
  }

  /** The domain, the four texts, the version in eight bytes, the counted host keys. */
  function ReadSigned(message: string): Option<Binding> {
    var domain := "PFREMOTE-SSH-CAPABILITY-BINDING-V1";
    if !(domain <= message) then None
    else match ReadFields(message[|domain|..], 4)
      case None => None
      case Some((texts, afterTexts)) =>
        match ReadNumber(afterTexts, 8)
        case None => None
        case Some((version, afterVersion)) =>
          match ReadCounted(afterVersion)
          case None => None
          case Some(keys) =>
            if |texts| != 4 then None
            else Some(Binding(texts[0], texts[1], texts[2], texts[3], version, keys, Undecodable("")))
  }

  lemma ReadsFramed(field: string, rest: string)
    requires |field| < 0x1_0000_0000
    ensures ReadField(Framed(field) + rest) == Some((field, rest))
  {
    hide BigEndian, Power256, Value;
    Widths();
    NumberReadsBack(|field|, 4);
    var bytes := Framed(field) + rest;
    assert bytes[..4] == BigEndian(|field|, 4);
    assert bytes[4..4 + |field|] == field && bytes[4 + |field|..] == rest;
  }

  lemma ReadsNumber(n: nat, width: nat, rest: string)
    requires n < Power256(width)
    ensures ReadNumber(BigEndian(n, width) + rest, width) == Some((n, rest))
  {
    hide BigEndian, Power256, Value;
    NumberReadsBack(n, width);
    var bytes := BigEndian(n, width) + rest;
    assert bytes[..width] == BigEndian(n, width) && bytes[width..] == rest;
  }

  lemma {:induction false} ReadsFramedKeys(keys: seq<HostKey>)
    requires ShortKeys(keys)
    ensures ReadKeys(FramedKeys(keys), |keys|) == Some(keys)
  {
    hide Framed, ReadField;
    if keys != [] {
      FramedKeysHead(keys);
      ReadsFramed(keys[0].algorithm, Framed(keys[0].publicKey) + FramedKeys(keys[1..]));
      ReadsFramed(keys[0].publicKey, FramedKeys(keys[1..]));
      ReadsFramedKeys(keys[1..]);
      assert keys == [keys[0]] + keys[1..];
    }
  }

  lemma ReadsOneMore(field: string, rest: string, n: nat, fields: seq<string>, after: string)
    requires |field| < 0x1_0000_0000 && ReadFields(rest, n) == Some((fields, after))
    ensures ReadFields(Framed(field) + rest, n + 1) == Some(([field] + fields, after))
  {
    hide Framed, ReadField;
    ReadsFramed(field, rest);
  }

  lemma ReadsFourFields(b: Binding)
    requires FitsPrefixes(b)
    ensures ReadFields(FromSchema(b), 4) == Some(([b.schema, b.fabric, b.device, b.capability], FromVersion(b)))
  {
    hide Framed, FromVersion;
    var after := FromVersion(b);
    assert ReadFields(after, 0) == Some(([], after));
    hide ReadFields;
    ReadsOneMore(b.capability, after, 0, [], after);
    ReadsOneMore(b.device, FromCapability(b), 1, [b.capability] + [], after);
    ReadsOneMore(b.fabric, FromDevice(b), 2, [b.device] + ([b.capability] + []), after);
    ReadsOneMore(b.schema, FromFabric(b), 3, [b.fabric] + ([b.device] + ([b.capability] + [])), after);
    assert [b.schema] + ([b.fabric] + ([b.device] + ([b.capability] + []))) == [b.schema, b.fabric, b.device, b.capability];
  }

  /** What is signed for a binding reads back as that binding, signature apart. */
  lemma SignedReadsBack(b: Binding)
    requires |b.schema| < 0x1_0000_0000 && |b.fabric| < 0x1_0000_0000 && |b.device| < 0x1_0000_0000
    requires |b.capability| < 0x1_0000_0000 && b.version < 0x1_0000_0000_0000_0000 && |b.hostKeys| < 0x1_0000_0000
    requires forall i | 0 <= i < |b.hostKeys| :: |b.hostKeys[i].algorithm| < 0x1_0000_0000 && |b.hostKeys[i].publicKey| < 0x1_0000_0000
    ensures ReadSigned(SigningBytes(b)) == Some(b.(signature := Undecodable("")))
  {
    hide Framed, FramedKeys, ReadKeys, ReadField, ReadFields, ReadNumber, BigEndian, Power256, FromSchema;
    var domain, message := "PFREMOTE-SSH-CAPABILITY-BINDING-V1", SigningBytes(b);
    assert message[..|domain|] == domain && message[|domain|..] == FromSchema(b);
    ReadsFourFields(b);
    Widths();
    ReadsNumber(b.version, 8, FromKeys(b.hostKeys));
    ReadsNumber(|b.hostKeys|, 4, FramedKeys(b.hostKeys));
    ReadsFramedKeys(b.hostKeys);
  }

  // ---- base64 -----------------------------------------------------------------------

  /** The alphabet of RFC 4648, section 4. */
  function Letter(n: nat): char
    requires n < 64
  {
    if n < 26 then ('A' as int + n) as char
    else if n < 52 then ('a' as int + n - 26) as char
    else if n < 62 then ('0' as int + n - 52) as char
    else if n == 62 then '+' else '/'
  }

  // Three bytes are four groups of six bits.
  function First(a: nat): nat { a / 4 }
  function Second(a: nat, b: nat): nat { a % 4 * 16 + b / 16 }
  function Third(b: nat, c: nat): nat { b % 16 * 4 + c / 64 }
  function Fourth(c: nat): nat { c % 64 }

  /** Base64 without padding, as that section defines it. */
  function Encoded(bytes: string): string
    requires Bytes(bytes)
  {
    if bytes == "" then ""
    else
      var a := bytes[0] as nat;
      if |bytes| == 1 then [Letter(First(a)), Letter(Second(a, 0))]
      else
        var b := bytes[1] as nat;
        if |bytes| == 2 then [Letter(First(a)), Letter(Second(a, b)), Letter(Third(b, 0))]
        else
          var c := bytes[2] as nat;
          [Letter(First(a)), Letter(Second(a, b)), Letter(Third(b, c)), Letter(Fourth(c))] + Encoded(bytes[3..])
  }

  lemma SextetOfLetter(n: nat)
    requires n < 64
    ensures Sextet(Letter(n)) == Some(n)
  {
  }

  lemma LetterOfSextet(c: char)
    requires Sextet(c).Some?
    ensures Sextet(c).value < 64 && Letter(Sextet(c).value) == c
  {
  }

  lemma Regrouped(a: nat, b: nat, c: nat)
    requires a < 256 && b < 256 && c < 256
    ensures Byte0(First(a), Second(a, b)) == a
    ensures Byte1(Second(a, b), Third(b, c)) == b && Second(a, 0) % 16 == 0
    ensures Byte2(Third(b, c), Fourth(c)) == c && Third(b, 0) % 4 == 0
  {
  }

  lemma Ungrouped(p: nat, q: nat, r: nat, t: nat)
    requires p < 64 && q < 64 && r < 64 && t < 64
    ensures var a, b, c := Byte0(p, q), Byte1(q, r), Byte2(r, t);
            && a < 256 && b < 256 && c < 256
            && First(a) == p && Second(a, b) == q && Third(b, c) == r && Fourth(c) == t
            && (q % 16 == 0 ==> Second(a, 0) == q) && (r % 4 == 0 ==> Third(b, 0) == r)
  {
  }

  lemma {:induction false} EncodedDecodes(bytes: string)
    requires Bytes(bytes)
    ensures DecodeRaw(Encoded(bytes)) == Some(bytes)
  {
    if bytes == "" {
    } else if |bytes| < 3 {
      EncodedEndDecodes(bytes);
    } else {
      EncodedDecodes(bytes[3..]);
      EncodedStartDecodes(bytes);
    }
  }

  lemma EncodedEndDecodes(bytes: string)
    requires Bytes(bytes) && 0 < |bytes| < 3
    ensures DecodeRaw(Encoded(bytes)) == Some(bytes)
  {
    hide Sextet, Letter, First, Second, Third, Fourth, Byte0, Byte1, Byte2, DecodeRaw;
    var a, text := bytes[0] as nat, Encoded(bytes);
    if |bytes| == 1 {
      Grouped(a, 0, 0);
      DecodesTwo(text, First(a), Second(a, 0));
      assert bytes == [bytes[0]];
    } else {
      var b := bytes[1] as nat;
      Grouped(a, b, 0);
      DecodesThree(text, First(a), Second(a, b), Third(b, 0));
      assert bytes == [bytes[0]] + [bytes[1]];
    }
  }

  lemma EncodedStartDecodes(bytes: string)
    requires Bytes(bytes) && |bytes| >= 3 && DecodeRaw(Encoded(bytes[3..])) == Some(bytes[3..])
    ensures DecodeRaw(Encoded(bytes)) == Some(bytes)
  {
    hide Sextet, Letter, First, Second, Third, Fourth, Byte0, Byte1, Byte2, DecodeRaw;
    var a, b, c := bytes[0] as nat, bytes[1] as nat, bytes[2] as nat;
    Grouped(a, b, c);
    var text := Encoded(bytes);
    assert text[4..] == Encoded(bytes[3..]);
    DecodesFour(text, First(a), Second(a, b), Third(b, c), Fourth(c));
    assert bytes == [bytes[0]] + [bytes[1]] + [bytes[2]] + bytes[3..];
  }

  lemma DecodesTwo(text: string, p: nat, q: nat)
    requires |text| == 2 && Sextet(text[0]) == Some(p) && Sextet(text[1]) == Some(q) && q % 16 == 0
    ensures DecodeRaw(text) == Some(AsByte(Byte0(p, q)))
  {
    hide Sextet, Byte0, AsByte;
  }

  lemma DecodesThree(text: string, p: nat, q: nat, r: nat)
    requires |text| == 3 && Sextet(text[0]) == Some(p) && Sextet(text[1]) == Some(q) && Sextet(text[2]) == Some(r) && r % 4 == 0
    ensures DecodeRaw(text) == Some(AsByte(Byte0(p, q)) + AsByte(Byte1(q, r)))
  {
    hide Sextet, Byte0, Byte1, AsByte;
  }

  lemma DecodesFour(text: string, p: nat, q: nat, r: nat, t: nat)
    requires |text| >= 4 && Sextet(text[0]) == Some(p) && Sextet(text[1]) == Some(q)
    requires Sextet(text[2]) == Some(r) && Sextet(text[3]) == Some(t) && DecodeRaw(text[4..]).Some?
    ensures DecodeRaw(text) == Some(AsByte(Byte0(p, q)) + AsByte(Byte1(q, r)) + AsByte(Byte2(r, t)) + DecodeRaw(text[4..]).value)
  {
    hide Sextet, Byte0, Byte1, Byte2, AsByte;
  }

  /** The four letters of three bytes, and back. */
  lemma Grouped(a: nat, b: nat, c: nat)
    requires a < 256 && b < 256 && c < 256
    ensures First(a) < 64 && Second(a, b) < 64 && Third(b, c) < 64 && Fourth(c) < 64
    ensures Sextet(Letter(First(a))) == Some(First(a)) && Sextet(Letter(Second(a, b))) == Some(Second(a, b))
    ensures Sextet(Letter(Third(b, c))) == Some(Third(b, c)) && Sextet(Letter(Fourth(c))) == Some(Fourth(c))
    ensures Byte0(First(a), Second(a, b)) == a
    ensures Byte1(Second(a, b), Third(b, c)) == b && Second(a, 0) % 16 == 0
    ensures Byte2(Third(b, c), Fourth(c)) == c && Third(b, 0) % 4 == 0
  {
    hide Sextet, Letter, Byte0, Byte1, Byte2;
    Regrouped(a, b, c);
    SextetOfLetter(First(a));
    SextetOfLetter(Second(a, b));
    SextetOfLetter(Third(b, c));
    SextetOfLetter(Fourth(c));
  }

  lemma {:induction false} DecodedEncodes(text: string)
    requires DecodeRaw(text).Some?
    ensures Bytes(DecodeRaw(text).value) && Encoded(DecodeRaw(text).value) == text
  {
    hide Sextet, Letter, First, Second, Third, Fourth, Byte0, Byte1, Byte2;
    if text != "" {
      var p, q := Sextet(text[0]).value, Sextet(text[1]).value;
      LetterOfSextet(text[0]);
      LetterOfSextet(text[1]);
      var r, t := 0, 0;
      if |text| > 2 {
        LetterOfSextet(text[2]);
        r := Sextet(text[2]).value;
      }
      if |text| > 3 {
        LetterOfSextet(text[3]);
        t := Sextet(text[3]).value;
      }
      Ungrouped(p, q, r, t);
      if |text| >= 4 {
        DecodedEncodes(text[4..]);
        assert DecodeRaw(text).value[3..] == DecodeRaw(text[4..]).value;
        assert text == [text[0], text[1], text[2], text[3]] + text[4..];
      }
    }
  }

  /** The text is the base64 of these bytes: without padding, or padded to a multiple of four. */
  predicate EncodedAs(text: string, bytes: string) {
    && Bytes(bytes)
    && (text == Encoded(bytes)
        || (|bytes| % 3 == 1 && text == Encoded(bytes) + "==")
        || (|bytes| % 3 == 2 && text == Encoded(bytes) + "="))
  }

  lemma {:induction false} EncodedShape(bytes: string)
    requires Bytes(bytes)
    ensures |Encoded(bytes)| == |bytes| / 3 * 4 + (if |bytes| % 3 == 0 then 0 else |bytes| % 3 + 1)
    ensures forall c | c in Encoded(bytes) :: Sextet(c).Some?
  {
    hide Sextet, Letter, First, Second, Third, Fourth;
    if bytes != "" {
      var a := bytes[0] as nat;
      var b := if |bytes| > 1 then bytes[1] as nat else 0;
      var c := if |bytes| > 2 then bytes[2] as nat else 0;
      Grouped(a, b, c);
      Grouped(a, 0, 0);
      Grouped(a, b, 0);
      if |bytes| >= 3 {
        EncodedShape(bytes[3..]);
      }
    }
  }

  lemma {:induction false} Trimmed(text: string) returns (k: nat)
    ensures k <= |text| && TrimPadding(text) == text[..|text| - k]
    ensures forall i | |text| - k <= i < |text| :: text[i] == '='
    ensures TrimPadding(text) != "" ==> text[|text| - k - 1] != '='
  {
    k := 0;
    if text != "" && text[|text| - 1] == '=' {
      var rest := Trimmed(text[..|text| - 1]);
      k := rest + 1;
    }
  }

  /** Trimming takes off exactly the padding. */
  lemma {:induction false} TrimsPadding(body: string, padding: string)
    requires body == "" || body[|body| - 1] != '='
    requires forall i | 0 <= i < |padding| :: padding[i] == '='
    ensures TrimPadding(body + padding) == body
  {
    var text := body + padding;
    if padding == "" {
      assert text == body;
    } else {
      var less := padding[..|padding| - 1];
      TrimsPadding(body, less);
      assert text[..|text| - 1] == body + less && text[|text| - 1] == '=';
    }
  }

  lemma NotALetter()
    ensures Sextet('=').None? && Sextet('\r').None? && Sextet('\n').None? && Sextet('\t').None? && Sextet(' ').None?
  {
  }

  /** Strict standard base64 accepts exactly the encodings of not too many bytes, padded or not. */
  lemma DecodesExactly(text: string, bytes: string)
    ensures DecodeStandard(text) == Some(bytes) <==> text != "" && |text| <= 21848 && EncodedAs(text, bytes)
  {
    hide Sextet, DecodeRaw, Encoded, TrimPadding;
    if DecodeStandard(text) == Some(bytes) {
      DecodedIsEncoding(text, bytes);
    }
    if text != "" && |text| <= 21848 && EncodedAs(text, bytes) {
      EncodingIsDecoded(text, bytes);
    }
  }

  /** How much padding an encoding of `n` bytes takes. */
  lemma PaddingFits(n: nat, length: nat, k: nat)
    requires length == n / 3 * 4 + (if n % 3 == 0 then 0 else n % 3 + 1)
    requires 1 <= k <= 2 && (length + k) % 4 == 0
    ensures (n % 3 == 1 && k == 2) || (n % 3 == 2 && k == 1)
  {
  }

  lemma DecodedIsEncoding(text: string, bytes: string)
    requires DecodeStandard(text) == Some(bytes)
    ensures EncodedAs(text, bytes)
  {
    hide Sextet, DecodeRaw, Encoded, TrimPadding;
    if '=' in text {
      var body := TrimPadding(text);
      DecodedEncodes(body);
      EncodedShape(bytes);
      NotALetter();
      assert '=' !in body;
      var k := Trimmed(text);
      PaddingFits(|bytes|, |body|, k);
      assert text == body + text[|body|..];
      assert text[|body|..] == if k == 2 then "==" else "=";
    } else {
      DecodedEncodes(text);
    }
  }

  lemma EncodingIsDecoded(text: string, bytes: string)
    requires text != "" && |text| <= 21848 && EncodedAs(text, bytes)
    ensures DecodeStandard(text) == Some(bytes)
  {
    hide Sextet, DecodeRaw, Encoded, TrimPadding;
    var body := Encoded(bytes);
    EncodedDecodes(bytes);
    EncodedShape(bytes);
    NotALetter();
    assert '=' !in body && forall c | c in body :: c !in {'\r', '\n', '\t', ' '};
    if text != body {
      TrimsPadding(body, text[|body|..]);
      assert text == body + text[|body|..];
    }
  }

  // ---- host keys ----------------------------------------------------------------------

  /** A blob of at most 16 KiB: the algorithm's length in four bytes, the algorithm, and data. */
  predicate BlobFor(algorithm: string, blob: string) {
    && |blob| <= 16384 && |blob| > 4 + |algorithm|
    && blob[..4] == BigEndian(|algorithm|, 4) && blob[4..4 + |algorithm|] == algorithm
  }

  /** An ASCII letter or digit, by its code. */
  predicate LetterOrDigit(c: char) {
    48 <= c as int <= 57 || 65 <= c as int <= 90 || 97 <= c as int <= 122
  }

  /** A letter or digit, then up to 63 letters, digits and marks. */
  predicate AlgorithmName(text: string) {
    && 1 <= |text| <= 64 && LetterOrDigit(text[0])
    && forall i | 0 <= i < |text| :: LetterOrDigit(text[i]) || text[i] in "@._+-"
  }

  /** A host key decodes exactly if its text is the base64 of a blob for its algorithm. */
  lemma HostKeyDecodesExactly(key: HostKey, blob: string)
    ensures DecodeHostKey(key) == Some(blob) <==>
            && AlgorithmName(key.algorithm) && key.publicKey != "" && |key.publicKey| <= 21848
            && EncodedAs(key.publicKey, blob) && BlobFor(key.algorithm, blob)
  {
    hide DecodeStandard, BigEndian, Value, Encoded;
    DecodesExactly(key.publicKey, blob);
    Widths();
    if |blob| >= 4 && Bytes(blob) {
      NumberOf(blob[..4]);
      if ValidAlgorithm(key.algorithm) {
        NumberReadsBack(|key.algorithm|, 4);
      }
    }
    assert forall c :: c in "@._+-" <==> c in {'@', '.', '_', '+', '-'};
    assert forall c :: Alphanumeric(c) <==> LetterOrDigit(c);
  }

  // ---- what a binding that verifies consists of -----------------------------------------

  /** A letter or digit, then up to 127 letters, digits and marks. */
  predicate TargetName(text: string) {
    && 1 <= |text| <= 128 && LetterOrDigit(text[0])
    && forall i | 0 <= i < |text| :: LetterOrDigit(text[i]) || text[i] in "._-"
  }

  ghost predicate GoodKey(key: HostKey) {
    AlgorithmName(key.algorithm) && |key.publicKey| <= 21848
    && exists blob :: EncodedAs(key.publicKey, blob) && BlobFor(key.algorithm, blob)
  }

  /** Two texts for one key: the same algorithm and the same blob. */
  ghost predicate SameKey(a: HostKey, b: HostKey) {
    a.algorithm == b.algorithm && exists blob :: EncodedAs(a.publicKey, blob) && EncodedAs(b.publicKey, blob)
  }

  /** Ascending by algorithm, then by text. */
  ghost predicate Ascending(keys: seq<HostKey>) {
    forall i, j | 0 <= i < j < |keys| ::
      || Before(keys[i].algorithm, keys[j].algorithm)
      || (keys[i].algorithm == keys[j].algorithm && !Before(keys[j].publicKey, keys[i].publicKey))
  }

  /** The Device's key signed this binding with its host keys in ascending order. */
  ghost predicate SignedBinding(key: Key, b: Binding) {
    exists keys :: multiset(keys) == multiset(b.hostKeys) && Ascending(keys)
                   && b.signature == SignedBy(key, SigningBytes(b.(hostKeys := keys)))
  }

  lemma GoodKeysDecode(key: HostKey)
    ensures GoodKey(key) <==> DecodeHostKey(key).Some?
    ensures DecodeHostKey(key).Some? ==> EncodedAs(key.publicKey, DecodeHostKey(key).value)
  {
    hide EncodedAs, DecodeHostKey, BlobFor;
    forall blob
      ensures DecodeHostKey(key) == Some(blob) <==>
              && AlgorithmName(key.algorithm) && key.publicKey != "" && |key.publicKey| <= 21848
              && EncodedAs(key.publicKey, blob) && BlobFor(key.algorithm, blob)
    {
      HostKeyDecodesExactly(key, blob);
    }
    forall blob | EncodedAs(key.publicKey, blob) && BlobFor(key.algorithm, blob)
      ensures key.publicKey != ""
    {
      NonEmptyText(key.publicKey, blob, key.algorithm);
    }
  }

  lemma NonEmptyText(text: string, blob: string, algorithm: string)
    requires EncodedAs(text, blob) && BlobFor(algorithm, blob)
    ensures text != ""
  {
    EncodedShape(blob);
  }

  lemma OneEncoding(text: string, a: string, b: string)
    requires text != "" && |text| <= 21848 && EncodedAs(text, a) && EncodedAs(text, b)
    ensures a == b
  {
    DecodesExactly(text, a);
    DecodesExactly(text, b);
  }

  lemma SameKeysDecode(a: HostKey, b: HostKey)
    requires DecodeHostKey(a).Some? && DecodeHostKey(b).Some?
    ensures SameKey(a, b) <==> a.algorithm == b.algorithm && DecodeHostKey(a) == DecodeHostKey(b)
  {
    hide EncodedAs, DecodeHostKey, BlobFor;
    var x, y := DecodeHostKey(a).value, DecodeHostKey(b).value;
    HostKeyDecodesExactly(a, x);
    HostKeyDecodesExactly(b, y);
    if SameKey(a, b) {
      var blob :| EncodedAs(a.publicKey, blob) && EncodedAs(b.publicKey, blob);
      OneEncoding(a.publicKey, x, blob);
      OneEncoding(b.publicKey, y, blob);
    }
  }

  lemma CanonicalAscends(keys: seq<HostKey>)
    ensures Ascending(Canonical(keys)) && multiset(Canonical(keys)) == multiset(keys)
  {
    CanonicalIsSortedPermutation(keys);
    var sorted := Canonical(keys);
    forall i, j | 0 <= i < j < |sorted|
      ensures Before(sorted[i].algorithm, sorted[j].algorithm)
              || (sorted[i].algorithm == sorted[j].algorithm && !Before(sorted[j].publicKey, sorted[i].publicKey))
    {
      BeforeTotal(sorted[i].algorithm, sorted[j].algorithm);
    }
  }

  lemma AscendingIsCanonical(keys: seq<HostKey>, other: seq<HostKey>)
    requires multiset(keys) == multiset(other) && Ascending(keys)
    ensures keys == Canonical(other)
  {
    CanonicalIsSortedPermutation(other);
    KeysAreOrdered();
    forall i, j | 0 <= i < j < |keys|
      ensures !KeyBefore(keys[j], keys[i])
    {
      if Before(keys[i].algorithm, keys[j].algorithm) {
        BeforeAsymmetric(keys[i].algorithm, keys[j].algorithm);
      }
    }
    SortedIsUnique(KeyBefore, keys, Canonical(other));
  }

  lemma AcceptedKeysMean(keys: seq<HostKey>)
    ensures AcceptedKeys(keys) <==>
            && 1 <= |keys| <= 4 && (forall i | 0 <= i < |keys| :: GoodKey(keys[i]))
            && forall i, j | 0 <= i < j < |keys| :: !SameKey(keys[i], keys[j])
  {
    hide GoodKey, SameKey, DecodeHostKey;
    forall i | 0 <= i < |keys|
      ensures GoodKey(keys[i]) <==> DecodeHostKey(keys[i]).Some?
    {
      GoodKeysDecode(keys[i]);
    }
    forall i, j | 0 <= i < j < |keys| && DecodeHostKey(keys[i]).Some? && DecodeHostKey(keys[j]).Some?
      ensures SameKey(keys[i], keys[j]) <==> keys[i].algorithm == keys[j].algorithm && DecodeHostKey(keys[i]) == DecodeHostKey(keys[j])
    {
      SameKeysDecode(keys[i], keys[j]);
    }
  }

  lemma SignedMeans(key: Key, b: Binding)
    ensures Verifies(key, Message(b), b.signature) <==> SignedBinding(key, b)
  {
    hide SigningBytes, Canonical, Ascending;
    CanonicalAscends(b.hostKeys);
    forall keys | multiset(keys) == multiset(b.hostKeys) && Ascending(keys)
      ensures keys == Canonical(b.hostKeys)
    {
      AscendingIsCanonical(keys, b.hostKeys);
    }
  }

  lemma TargetNames(id: string)
    ensures ValidTargetID(id) <==> TargetName(id)
  {
    assert forall c :: c in "._-" <==> c in {'.', '_', '-'};
    assert forall c :: Alphanumeric(c) <==> LetterOrDigit(c);
  }

  /** A binding verifies exactly for the Fabric, Device and Capability it names, with a version
      from 1 to the largest signed 64-bit number and one to four good host keys, no two of them
      the same, if the Device's own key signed it. */
  lemma VerifiesExactly(device: string, key: Key, capability: string, fabric: string, b: Binding)
    ensures Verify(device, key, capability, fabric, b) <==>
            && b.schema == "pfremote.ssh-capability-binding/v1"
            && b.fabric == fabric && b.device == device && b.capability == capability
            && TargetName(fabric) && TargetName(device) && TargetName(capability)
            && 1 <= b.version <= 9223372036854775807
            && 1 <= |b.hostKeys| <= 4 && (forall i | 0 <= i < |b.hostKeys| :: GoodKey(b.hostKeys[i]))
            && (forall i, j | 0 <= i < j < |b.hostKeys| :: !SameKey(b.hostKeys[i], b.hostKeys[j]))
            && ValidKey(key) && device == "device-" + key
            && SignedBinding(key, b)
  {
    hide AcceptedKeys, GoodKey, SameKey, SignedBinding, Verifies, Message, ValidTargetID, TargetName;
    AcceptedKeysMean(b.hostKeys);
    SignedMeans(key, b);
    TargetNames(fabric);
    TargetNames(device);
    TargetNames(capability);
  }
}
