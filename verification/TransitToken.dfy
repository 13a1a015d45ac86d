/** The self-describing Transit token: src/transit/ciphertext.py. */
module TransitToken {
  import opened Text
  import opened Base64
  import opened Crypto

  const DEFAULT_KEY_VERSION := 1

  datatype Token = Token(name: string, version: nat, blob: Blob)

  predicate IsNameChar(c: char) {
    'A' <= c <= 'Z' || 'a' <= c <= 'z' || '0' <= c <= '9' || c == '.' || c == '_' || c == '-'
  }

  /** KEY_NAME_PATTERN, matched against the whole text. */
  predicate ValidName(name: string) {
    1 <= |name| <= 64 && forall k :: 0 <= k < |name| ==> IsNameChar(name[k])
  }

  /** VERSION_PATTERN, matched against the whole text: `v` and at most nine
      digits, the first of them not zero. */
  predicate VersionSegment(s: string) {
    2 <= |s| <= 10 && s[0] == 'v' && AllDigits(s[1..]) && s[1] != '0'
  }

  function Payload(blob: Blob): string {
    Encode(blob.nonce + blob.ciphertext + blob.tag)
  }

  /** The two framings, three or four parts around the separator. */
  function Plain3(a: string, b: string, c: string): string {
    a + [':'] + (b + [':'] + c)
  }

  function Versioned4(a: string, b: string, c: string, d: string): string {
    a + [':'] + Plain3(b, c, d)
  }

  /** `format_ciphertext`; None stands for its ValueError. */
  function Format(name: string, version: int, blob: Blob): Option<string> {
    if !ValidName(name) || version < 1 then None
    else if version == DEFAULT_KEY_VERSION then Some(Plain3("vault", name, Payload(blob)))
    else Some(Versioned4("vault", "v" + Decimal(version), name, Payload(blob)))
  }

  /** `payload[:12]`, `payload[12:-16]`, `payload[-16:]`. */
  function Slice(payload: Bytes): Blob
    requires |payload| >= NONCE_LENGTH + TAG_LENGTH
  {
    var cut := |payload| - TAG_LENGTH;
    Blob(payload[..NONCE_LENGTH], payload[NONCE_LENGTH..cut], payload[cut..])
  }

  /** The checks both framings share. */
  function ParseTail(prefix: string, version: nat, name: string, payload: string): Option<Token> {
    if prefix != "vault" || !ValidName(name) then None
    else if Decode(payload).None? || |Decode(payload).value| < NONCE_LENGTH + TAG_LENGTH then None
    else Some(Token(name, version, Slice(Decode(payload).value)))
  }

  /** `parse_ciphertext`; None stands for MalformedCiphertextError. */
  function Parse(token: string): Option<Token> {
    var parts := Split(token, ':', 3);
    if |parts| == 3 then ParseTail(parts[0], DEFAULT_KEY_VERSION, parts[1], parts[2])
    else if |parts| == 4 && VersionSegment(parts[1]) then
      ParseTail(parts[0], Value(parts[1][1..]), parts[2], parts[3])
    else None
  }

  const MAX_PARSED_VERSION: nat := 999_999_999

  predicate WellFormed(blob: Blob) {
    |blob.nonce| == NONCE_LENGTH && |blob.tag| == TAG_LENGTH
  }

  lemma NameFree(name: string)
    requires ValidName(name)
    ensures Free(name, ':')
  {
  }

  lemma SliceJoin(blob: Blob)
    requires WellFormed(blob)
    ensures |blob.nonce + blob.ciphertext + blob.tag| >= NONCE_LENGTH + TAG_LENGTH
    ensures Slice(blob.nonce + blob.ciphertext + blob.tag) == blob
  {
  }

  lemma JoinSlice(payload: Bytes)
    requires |payload| >= NONCE_LENGTH + TAG_LENGTH
    ensures WellFormed(Slice(payload))
    ensures var b := Slice(payload); b.nonce + b.ciphertext + b.tag == payload
  {
  }

  /** A printed version is a segment the pattern takes exactly up to nine digits. */
  lemma PrintedSegment(version: nat)
    requires version >= 1
    ensures VersionSegment("v" + Decimal(version)) <==> version <= MAX_PARSED_VERSION
    ensures AllDigits(Decimal(version)) && Value(Decimal(version)) == version
    ensures Free("v" + Decimal(version), ':')
  {
    DecimalReads(version);
    DecimalLength(version, 9);
    assert Pow10(9) == 1_000_000_000 by {
      assert Pow10(3) == 1000;
      assert Pow10(6) == 1000 * Pow10(3);
      assert Pow10(9) == 1000 * Pow10(6);
    }
    assert ("v" + Decimal(version))[1..] == Decimal(version);
  }

  lemma SplitTwo(a: string, b: string, c: string, max: nat)
    requires Free(a, ':') && Free(b, ':') && max >= 2
    ensures Split(Plain3(a, b, c), ':', max) == [a, b] + Split(c, ':', max - 2)
  {
    hide Split;
    SplitCons(a, b + [':'] + c, ':', max);
    SplitCons(b, c, ':', max - 1);
  }

  lemma SplitPlain(a: string, b: string, c: string)
    requires Free(a, ':') && Free(b, ':') && Free(c, ':')
    ensures Split(Plain3(a, b, c), ':', 3) == [a, b, c]
  {
    SplitFree(c, ':', 1);
    hide Split, Plain3;
    SplitTwo(a, b, c, 3);
  }

  lemma SplitVersioned(a: string, b: string, c: string, d: string)
    requires Free(a, ':') && Free(b, ':') && Free(c, ':')
    ensures Split(Versioned4(a, b, c, d), ':', 3) == [a, b, c, d]
  {
    hide Split, Plain3;
    var rest := Plain3(b, c, d);
    SplitTwo(b, c, d, 2);
    SplitZero(d);
    assert Split(rest, ':', 2) == [b, c] + [d];
    SplitCons(a, rest, ':', 3);
    assert Split(a + [':'] + rest, ':', 3) == [a] + ([b, c] + [d]);
  }

  lemma SplitZero(d: string)
    ensures Split(d, ':', 0) == [d]
  {
  }

  /** The parts of a printed token, for every version. */
  function Parts(name: string, version: nat, blob: Blob): seq<string> {
    if version == DEFAULT_KEY_VERSION then ["vault", name, Payload(blob)]
    else ["vault", "v" + Decimal(version), name, Payload(blob)]
  }

  lemma FormatSplits(name: string, version: int, blob: Blob)
    requires ValidName(name) && version >= 1
    ensures Format(name, version, blob).Some?
    ensures Split(Format(name, version, blob).value, ':', 3) == Parts(name, version, blob)
  {
    NameFree(name);
    EncodeShape(blob.nonce + blob.ciphertext + blob.tag);
    hide Encode, Split, ValidName, Plain3, Versioned4;
    if version == DEFAULT_KEY_VERSION {
      SplitPlain("vault", name, Payload(blob));
    } else {
      PrintedSegment(version);
      SplitVersioned("vault", "v" + Decimal(version), name, Payload(blob));
    }
  }

  lemma TailParses(name: string, version: nat, blob: Blob)
    requires ValidName(name) && WellFormed(blob)
    ensures ParseTail("vault", version, name, Payload(blob)) == Some(Token(name, version, blob))
  {
    hide Encode, Decode, ValidName;
    DecodeEncode(blob.nonce + blob.ciphertext + blob.tag);
    SliceJoin(blob);
  }

  /** Printing and parsing undo each other exactly for the versions of at most
      nine digits: the printer takes every positive version, the parser refuses
      the longer ones. */
  lemma FormatParses(name: string, version: int, blob: Blob)
    requires ValidName(name) && version >= 1 && WellFormed(blob)
    ensures Format(name, version, blob).Some?
    ensures Parse(Format(name, version, blob).value)
         == if version <= MAX_PARSED_VERSION then Some(Token(name, version, blob)) else None
  {
    hide Encode, Decode, Split, ValidName, Format, ParseTail, Payload, VersionSegment, Decimal, Value, WellFormed;
    FormatSplits(name, version, blob);
    TailParses(name, version, blob);
    if version != DEFAULT_KEY_VERSION {
      PrintedSegment(version);
      assert ("v" + Decimal(version))[1..] == Decimal(version);
    }
  }

  lemma PartsInjective(name: string, version: nat, blob: Blob, name': string, version': nat, blob': Blob)
    requires version >= 1 && version' >= 1 && Parts(name, version, blob) == Parts(name', version', blob')
    ensures name == name' && version == version' && Payload(blob) == Payload(blob')
  {
    PrintedSegment(version);
    PrintedSegment(version');
    hide Payload, Decimal, Value;
    var parts, parts' := Parts(name, version, blob), Parts(name', version', blob');
    if version != DEFAULT_KEY_VERSION {
      assert parts[1] == parts'[1] && parts[2] == parts'[2] && parts[3] == parts'[3];
      assert parts[1][1..] == Decimal(version) && parts'[1][1..] == Decimal(version');
    } else {
      assert parts[1] == parts'[1] && parts[2] == parts'[2];
    }
  }

  /** One token text stands for one name, version and blob, across both framings and for
      every version the printer takes. */
  lemma FormatInjective(name: string, version: int, blob: Blob, name': string, version': int, blob': Blob)
    requires WellFormed(blob) && WellFormed(blob')
    requires Format(name, version, blob).Some?
    requires Format(name, version, blob) == Format(name', version', blob')
    ensures name == name' && version == version' && blob == blob'
  {
    FormatSplits(name, version, blob);
    FormatSplits(name', version', blob');
    hide Encode, Split, ValidName, Plain3, Versioned4, Parts;
    PartsInjective(name, version, blob, name', version', blob');
    EncodeInjective(blob.nonce + blob.ciphertext + blob.tag, blob'.nonce + blob'.ciphertext + blob'.tag);
    SliceJoin(blob);
    SliceJoin(blob');
  }

  /** Everything the parser accepts has a valid name, a version in range and a
      payload of at least a nonce and a tag. */
  lemma ParseAccepts(token: string)
    requires Parse(token).Some?
    ensures var t := Parse(token).value;
            ValidName(t.name) && 1 <= t.version <= MAX_PARSED_VERSION && WellFormed(t.blob)
  {
    var parts := Split(token, ':', 3);
    if |parts| == 4 {
      SegmentText(parts[1]);
    }
  }

  lemma SegmentRange(digits: string)
    requires VersionSegment("v" + digits)
    ensures AllDigits(digits) && 1 <= Value(digits) <= MAX_PARSED_VERSION
    ensures Decimal(Value(digits)) == digits
  {
    assert ("v" + digits)[1..] == digits;
    DecimalPrints(digits);
    DecimalReads(Value(digits));
    PrintedSegment(Value(digits));
  }

  /** Parsing normalises: the accepted text and the printed one mean the same. */
  lemma ParseNormalises(token: string)
    requires Parse(token).Some?
    ensures var t := Parse(token).value;
            && Format(t.name, t.version, t.blob).Some?
            && Parse(Format(t.name, t.version, t.blob).value) == Some(t)
  {
    ParseAccepts(token);
    var t := Parse(token).value;
    FormatParses(t.name, t.version, t.blob);
  }

  /** The segment the printer never emits: an explicit version 1. */
  predicate ExplicitOne(token: string) {
    var parts := Split(token, ':', 3);
    |parts| == 4 && parts[1] == "v1"
  }

  /** The payload part of an accepted token. */
  function PayloadPart(token: string): string {
    var parts := Split(token, ':', 3);
    parts[|parts| - 1]
  }

  /** Printing what was parsed gives the token back exactly when the token has
      no explicit `v1` segment and its base64 has zero pad bits. */
  lemma ParsePrints(token: string)
    requires Parse(token).Some?
    ensures var t := Parse(token).value;
            Format(t.name, t.version, t.blob) == Some(token)
            <==> !ExplicitOne(token) && CanonicalPad(PayloadPart(token))
  {
    PayloadText(token);
    ParsedText(token);
    hide Split, Parse, Payload, CanonicalPad, PayloadPart, Format;
    var t, text := Parse(token).value, PayloadPart(token);
    if |Split(token, ':', 3)| == 3 {
      PrintedPlain(token, t, text);
    } else {
      PrintedText(token, t, Split(token, ':', 3)[1], text);
    }
  }

  /** The parts of an accepted token, and the token they were cut from. */
  lemma ParsedText(token: string)
    requires Parse(token).Some?
    ensures var parts, t := Split(token, ':', 3), Parse(token).value;
            && ValidName(t.name) && t.version >= 1
            && if |parts| == 3
               then t.version == 1 && token == Plain3("vault", t.name, PayloadPart(token))
               else parts == ["vault", "v" + Decimal(t.version), t.name, PayloadPart(token)]
                    && token == Versioned4("vault", "v" + Decimal(t.version), t.name, PayloadPart(token))
  {
    hide Split, Join, Decode, ValidName, Slice, Plain3, Versioned4, VersionSegment, AllDigits, Value, Decimal;
    JoinSplit(token, ':', 3);
    var parts := Split(token, ':', 3);
    if |parts| == 3 {
      JoinThree(parts);
    } else {
      JoinFour(parts);
      SegmentText(parts[1]);
      assert parts == [parts[0], parts[1], parts[2], parts[3]];
    }
  }

  lemma SegmentText(segment: string)
    requires VersionSegment(segment)
    ensures 1 <= Value(segment[1..]) <= MAX_PARSED_VERSION
    ensures segment == "v" + Decimal(Value(segment[1..]))
  {
    assert segment == "v" + segment[1..];
    SegmentRange(segment[1..]);
  }

  lemma PrintedPlain(token: string, t: Token, text: string)
    requires ValidName(t.name) && t.version == 1
    requires token == Plain3("vault", t.name, text)
    ensures Format(t.name, t.version, t.blob) == Some(token) <==> Payload(t.blob) == text
  {
    hide Payload, Plain3, ValidName;
    SameThree("vault", t.name, Payload(t.blob), text);
  }

  lemma PayloadText(token: string)
    requires Parse(token).Some?
    ensures Payload(Parse(token).value.blob) == PayloadPart(token) <==> CanonicalPad(PayloadPart(token))
  {
    hide CanonicalPad, Encode, Decode, Split, ValidName, VersionSegment;
    EncodeDecode(PayloadPart(token));
    JoinSlice(Decode(PayloadPart(token)).value);
  }

  lemma PrintedText(token: string, t: Token, segment: string, text: string)
    requires ValidName(t.name) && t.version >= 1 && segment == "v" + Decimal(t.version)
    requires Split(token, ':', 3) == ["vault", segment, t.name, text]
    requires token == Versioned4("vault", segment, t.name, text)
    ensures Format(t.name, t.version, t.blob) == Some(token)
            <==> segment != "v1" && Payload(t.blob) == text
  {
    assert Decimal(1) == "1";
    hide Split, Payload, Plain3, Versioned4, ValidName, Decimal, Encode;
    DecimalReads(t.version);
    DecimalReads(1);
    assert segment[1..] == Decimal(t.version) && "v1"[1..] == "1";
    if t.version == 1 {
      PlainSplits(t.name, t.blob);
    } else {
      SameFour("vault", segment, t.name, Payload(t.blob), text);
    }
  }

  lemma PlainSplits(name: string, blob: Blob)
    requires ValidName(name)
    ensures |Split(Plain3("vault", name, Payload(blob)), ':', 3)| == 3
  {
    NameFree(name);
    EncodeShape(blob.nonce + blob.ciphertext + blob.tag);
    SplitPlain("vault", name, Payload(blob));
  }

  lemma JoinThree(parts: seq<string>)
    requires |parts| == 3
    ensures Join(parts, ':') == Plain3(parts[0], parts[1], parts[2])
  {
    assert parts == [parts[0]] + ([parts[1]] + [parts[2]]);
    JoinCons(parts[0], [parts[1]] + [parts[2]], ':');
    JoinCons(parts[1], [parts[2]], ':');
  }

  lemma JoinFour(parts: seq<string>)
    requires |parts| == 4
    ensures Join(parts, ':') == Versioned4(parts[0], parts[1], parts[2], parts[3])
  {
    assert parts == [parts[0]] + parts[1..];
    JoinCons(parts[0], parts[1..], ':');
    JoinThree(parts[1..]);
  }

  lemma SameThree(a: string, b: string, c: string, c': string)
    ensures Plain3(a, b, c) == Plain3(a, b, c') <==> c == c'
  {
    SameTail(a + [':'], b + [':'] + c, b + [':'] + c');
    SameTail(b + [':'], c, c');
  }

  lemma SameFour(a: string, b: string, c: string, d: string, d': string)
    ensures Versioned4(a, b, c, d) == Versioned4(a, b, c, d') <==> d == d'
  {
    SameTail(a + [':'], Plain3(b, c, d), Plain3(b, c, d'));
    SameThree(b, c, d, d');
  }

  lemma SameTail(head: string, a: string, b: string)
    ensures head + a == head + b <==> a == b
  {
    assert (head + a)[|head|..] == a && (head + b)[|head|..] == b;
  }

  // ------------------------------------------------ names and tokens, by their texts

  const NAME_CHARACTERS: string := UPPER_LETTERS + LOWER_LETTERS + DIGITS + "._-"

  lemma NameCharMeans(c: char)
    ensures IsNameChar(c) <==> c in NAME_CHARACTERS
  {
    CaseMeans(c, c);
    DigitTable(c);
    assert c in NAME_CHARACTERS <==>
           c in UPPER_LETTERS || c in LOWER_LETTERS || c in DIGITS || c in "._-";
  }

  /** A key name: one to sixty-four letters, digits, dots, underscores and hyphens. */
  predicate IsName(name: string) {
    1 <= |name| <= 64 && forall k :: 0 <= k < |name| ==> name[k] in NAME_CHARACTERS
  }

  lemma NameMeans(name: string)
    ensures ValidName(name) <==> IsName(name)
  {
    hide IsNameChar, NAME_CHARACTERS;
    forall k | 0 <= k < |name| ensures IsNameChar(name[k]) <==> name[k] in NAME_CHARACTERS {
      NameCharMeans(name[k]);
    }
  }

  /** The text is the token of this name, version and blob in one of the two framings;
      version 1 has both. */
  ghost predicate Frames(text: string, t: Token, payload: string) {
    && IsName(t.name) && |t.blob.nonce| == 12 && |t.blob.tag| == 16
    && Decode(payload) == Some(t.blob.nonce + t.blob.ciphertext + t.blob.tag)
    && 1 <= t.version <= 999_999_999
    && (text == "vault:v" + Decimal(t.version) + ":" + t.name + ":" + payload
        || (t.version == 1 && text == "vault:" + t.name + ":" + payload))
  }

  lemma FramesAre(version: nat, name: string, payload: string)
    ensures "vault:" + name + ":" + payload == Plain3("vault", name, payload)
    ensures "vault:v" + Decimal(version) + ":" + name + ":" + payload
         == Versioned4("vault", "v" + Decimal(version), name, payload)
  {
    hide Decimal;
    assert "vault:" == "vault" + [':'] && "vault:v" == "vault" + [':'] + "v";
  }

  lemma FreeJoin(a: string, b: string, c: char)
    requires Free(a, c) && Free(b, c)
    ensures Free(a + b, c)
  {
  }

  lemma PaddingFree(n: nat)
    ensures Free(Padding(n), ':')
  {
  }

  lemma PayloadFree(payload: string)
    requires Decode(payload).Some?
    ensures Free(payload, ':')
  {
    hide Read, Octets, Body, Padding, Spell;
    SpellRead(Body(payload));
    BodyLength(payload);
    PaddingFree(|Body(payload)|);
    FreeJoin(Body(payload), Padding(|Body(payload)|), ':');
  }

  lemma FramedParses(text: string, t: Token, payload: string)
    requires Frames(text, t, payload)
    ensures Parse(text) == Some(t)
  {
    hide Split, Decode, ValidName, IsName, Slice, Decimal, Value, VersionSegment, Plain3, Versioned4;
    FramesAre(t.version, t.name, payload);
    NameMeans(t.name);
    NameFree(t.name);
    PayloadFree(payload);
    SliceJoin(t.blob);
    PrintedSegment(t.version);
    SplitPlain("vault", t.name, payload);
    SplitVersioned("vault", "v" + Decimal(t.version), t.name, payload);
    assert ("v" + Decimal(t.version))[1..] == Decimal(t.version);
  }

  lemma ParsedIsFramed(text: string)
    requires Parse(text).Some?
    ensures Frames(text, Parse(text).value, PayloadPart(text))
  {
    hide Split, Decode, ValidName, IsName, Decimal, Value, VersionSegment, Plain3, Versioned4;
    var t := Parse(text).value;
    ParseAccepts(text);
    ParsedText(text);
    NameMeans(t.name);
    FramesAre(t.version, t.name, PayloadPart(text));
    JoinSlice(Decode(PayloadPart(text)).value);
  }

  /** Exactly the framed texts are read, each as the token it frames. */
  lemma ParseMeans(text: string, t: Token)
    ensures Parse(text) == Some(t) <==> exists payload :: Frames(text, t, payload)
  {
    hide Parse, Frames;
    if Parse(text) == Some(t) {
      ParsedIsFramed(text);
    }
    forall payload | Frames(text, t, payload) ensures Parse(text) == Some(t) {
      FramedParses(text, t, payload);
    }
  }

  /** A token is printed for every valid name and positive version, in the shorter framing
      for version 1. */
  lemma FormatMeans(name: string, version: int, blob: Blob)
    ensures Format(name, version, blob).Some? <==> IsName(name) && version >= 1
    ensures Format(name, version, blob).Some? ==>
              Format(name, version, blob).value
              == (if version == 1 then "vault:" + name + ":" else "vault:v" + Decimal(version) + ":" + name + ":")
                 + Encode(blob.nonce + blob.ciphertext + blob.tag)
  {
    hide ValidName, IsName, Decimal, Encode, Plain3, Versioned4;
    NameMeans(name);
    if version >= 1 {
      FramesAre(version, name, Payload(blob));
    }
  }
}
