/** Standard base64 with a strict alphabet: `encode_b64` and `decode_b64` of
    src/core/encoding.py, after section 4 of RFC 4648.  Regrouping bits
    (`Sextets`, `Octets`) is kept apart from spelling them (`Spell`, `Read`). */
module Base64 {
  import opened Text

  type byte = b: int | 0 <= b < 256
  type Bytes = seq<byte>
  type sextet = v: int | 0 <= v < 64

  // ---------------------------------------------------------------- bit groups

  function Six0(b0: byte): sextet { b0 / 4 }
  function Six1(b0: byte, b1: byte): sextet { b0 % 4 * 16 + b1 / 16 }
  function Six2(b1: byte, b2: byte): sextet { b1 % 16 * 4 + b2 / 64 }
  function Six3(b2: byte): sextet { b2 % 64 }

  function Byte0(v0: int, v1: int): byte
    requires 0 <= v0 < 64 && 0 <= v1 < 64
  {
    v0 * 4 + v1 / 16
  }

  function Byte1(v1: int, v2: int): byte
    requires 0 <= v1 < 64 && 0 <= v2 < 64
  {
    v1 % 16 * 16 + v2 / 4
  }

  function Byte2(v2: int, v3: int): byte
    requires 0 <= v2 < 64 && 0 <= v3 < 64
  {
    v2 % 4 * 64 + v3
  }

  /** Three bytes become four groups of six bits; a tail is padded with zero bits. */
  function Sextets(b: Bytes): seq<sextet> {
    if b == [] then []
    else if |b| == 1 then [Six0(b[0]), Six1(b[0], 0)]
    else if |b| == 2 then [Six0(b[0]), Six1(b[0], b[1]), Six2(b[1], 0)]
    else [Six0(b[0]), Six1(b[0], b[1]), Six2(b[1], b[2]), Six3(b[2])] + Sextets(b[3..])
  }

  function Octets(v: seq<sextet>): Bytes {
    if |v| < 2 then []
    else if |v| == 2 then [Byte0(v[0], v[1])]
    else if |v| == 3 then [Byte0(v[0], v[1]), Byte1(v[1], v[2])]
    else [Byte0(v[0], v[1]), Byte1(v[1], v[2]), Byte2(v[2], v[3])] + Octets(v[4..])
  }

  /** No stray last group: the lengths `Sextets` produces. */
  predicate Grouped(v: seq<sextet>) {
    |v| != 1 && (|v| >= 4 ==> Grouped(v[4..]))
  }

  /** The bits of the last group that no byte uses are zero (section 3.5 of RFC 4648). */
  predicate ZeroTail(v: seq<sextet>) {
    if |v| == 2 then v[1] % 16 == 0
    else if |v| == 3 then v[2] % 4 == 0
    else |v| >= 4 ==> ZeroTail(v[4..])
  }

  lemma {:induction false} GroupedLength(v: seq<sextet>)
    ensures Grouped(v) <==> |v| % 4 != 1
  {
    if |v| >= 4 {
      GroupedLength(v[4..]);
    }
  }

  lemma Regroup(b0: byte, b1: byte, b2: byte)
    ensures Byte0(Six0(b0), Six1(b0, b1)) == b0
    ensures Byte1(Six1(b0, b1), Six2(b1, b2)) == b1
    ensures Byte2(Six2(b1, b2), Six3(b2)) == b2
  {
  }

  lemma {:induction false} OctetsSextets(b: Bytes)
    ensures Octets(Sextets(b)) == b
    ensures Grouped(Sextets(b))
  {
    hide Six0, Six1, Six2, Six3, Byte0, Byte1, Byte2;
    if |b| == 1 {
      Regroup(b[0], 0, 0);
      assert b == [b[0]];
    } else if |b| == 2 {
      Regroup(b[0], b[1], 0);
      assert b == [b[0], b[1]];
    } else if |b| >= 3 {
      OctetsSextets(b[3..]);
      Regroup(b[0], b[1], b[2]);
      assert Sextets(b)[4..] == Sextets(b[3..]);
      assert b == [b[0], b[1], b[2]] + b[3..];
    }
  }

  lemma Ungroup(v0: sextet, v1: sextet, v2: sextet, v3: sextet)
    ensures Six0(Byte0(v0, v1)) == v0 && Six1(Byte0(v0, v1), Byte1(v1, v2)) == v1
    ensures Six2(Byte1(v1, v2), Byte2(v2, v3)) == v2 && Six3(Byte2(v2, v3)) == v3
    ensures Six1(Byte0(v0, v1), 0) == v1 <==> v1 % 16 == 0
    ensures Six2(Byte1(v1, v2), 0) == v2 <==> v2 % 4 == 0
  {
  }

  lemma {:induction false} SextetsOctets(v: seq<sextet>)
    requires Grouped(v)
    ensures Sextets(Octets(v)) == v <==> ZeroTail(v)
    ensures |Sextets(Octets(v))| == |v|
  {
    hide Six0, Six1, Six2, Six3, Byte0, Byte1, Byte2;
    if |v| == 2 {
      Ungroup(v[0], v[1], 0, 0);
      assert v == [v[0], v[1]];
    } else if |v| == 3 {
      Ungroup(v[0], v[1], v[2], 0);
      assert v == [v[0], v[1], v[2]];
    } else if |v| >= 4 {
      SextetsOctets(v[4..]);
      Ungroup(v[0], v[1], v[2], v[3]);
      var b := Octets(v);
      assert b[3..] == Octets(v[4..]);
      assert Sextets(b) == [v[0], v[1], v[2], v[3]] + Sextets(b[3..]);
      assert Sextets(b)[4..] == Sextets(b[3..]);
      assert v == [v[0], v[1], v[2], v[3]] + v[4..];
    }
  }

  // ------------------------------------------------------------------ spelling

  function Letter(v: sextet): char {
    if v < 26 then ('A' as int + v) as char
    else if v < 52 then ('a' as int + v - 26) as char
    else if v < 62 then ('0' as int + v - 52) as char
    else if v == 62 then '+' else '/'
  }

  function Index(c: char): Option<sextet> {
    if 'A' <= c <= 'Z' then Some(c as int - 'A' as int)
    else if 'a' <= c <= 'z' then Some(c as int - 'a' as int + 26)
    else if '0' <= c <= '9' then Some(c as int - '0' as int + 52)
    else if c == '+' then Some(62)
    else if c == '/' then Some(63)
    else None
  }

  lemma IndexLetter(v: sextet)
    ensures Index(Letter(v)) == Some(v) && Letter(v) != '=' && Letter(v) != ':'
  {
  }

  lemma LetterIndex(c: char)
    requires Index(c).Some?
    ensures Letter(Index(c).value) == c && c != ':'
  {
  }

  function Spell(v: seq<sextet>): string {
    if v == [] then "" else [Letter(v[0])] + Spell(v[1..])
  }

  function Read(s: string): Option<seq<sextet>> {
    if s == "" then Some([])
    else if Index(s[0]).None? || Read(s[1..]).None? then None
    else Some([Index(s[0]).value] + Read(s[1..]).value)
  }

  lemma {:induction false} ReadSpell(v: seq<sextet>)
    ensures Read(Spell(v)) == Some(v)
    ensures |Spell(v)| == |v| && Free(Spell(v), '=') && Free(Spell(v), ':')
  {
    hide Letter, Index;
    if v != [] {
      IndexLetter(v[0]);
      ReadSpell(v[1..]);
      assert v == [v[0]] + v[1..];
      assert Spell(v)[1..] == Spell(v[1..]);
    }
  }

  lemma {:induction false} SpellRead(s: string)
    requires Read(s).Some?
    ensures Spell(Read(s).value) == s
    ensures |Read(s).value| == |s| && Free(s, ':')
  {
    hide Letter, Index;
    if s != "" {
      LetterIndex(s[0]);
      SpellRead(s[1..]);
      assert Read(s).value[1..] == Read(s[1..]).value;
    }
  }

  // ------------------------------------------------------------------- the API

  function Padding(n: nat): string {
    if n % 4 == 2 then "==" else if n % 4 == 3 then "=" else ""
  }

  function Encode(b: Bytes): string {
    Spell(Sextets(b)) + Padding(|Sextets(b)|)
  }

  /** The text before its padding. */
  function Body(s: string): string {
    var n := |s|;
    if n >= 2 && s[n - 1] == '=' && s[n - 2] == '=' then s[..n - 2]
    else if n >= 1 && s[n - 1] == '=' then s[..n - 1]
    else s
  }

  /** None stands for the ValueError of a length, alphabet or padding fault. */
  function Decode(s: string): Option<Bytes> {
    if |s| % 4 != 0 || Read(Body(s)).None? then None
    else Some(Octets(Read(Body(s)).value))
  }

  predicate CanonicalPad(s: string) {
    Read(Body(s)).Some? && ZeroTail(Read(Body(s)).value)
  }

  /** Cutting the padding off an unpadded text gives the text back. */
  lemma PaddingComesOff(p: string)
    requires Free(p, '=') && |p| % 4 != 1
    ensures Body(p + Padding(|p|)) == p
    ensures |p + Padding(|p|)| % 4 == 0
  {
    var n := |p|;
    var s := p + Padding(n);
    assert s[..n] == p;
    if n > 0 {
      assert p[n - 1] != '=' && s[n - 1] == p[n - 1];
    }
  }

  lemma BodyPadding(v: seq<sextet>)
    requires |v| % 4 != 1
    ensures Body(Spell(v) + Padding(|v|)) == Spell(v)
    ensures |Spell(v) + Padding(|v|)| % 4 == 0
  {
    hide Spell, Read, Body, Padding;
    ReadSpell(v);
    PaddingComesOff(Spell(v));
  }

  lemma BodyLength(s: string)
    requires |s| % 4 == 0 && Read(Body(s)).Some?
    ensures s == Body(s) + Padding(|Body(s)|) && |Body(s)| % 4 != 1
  {
    SpellRead(Body(s));
  }

  lemma DecodeEncode(b: Bytes)
    ensures Decode(Encode(b)) == Some(b)
  {
    var v := Sextets(b);
    OctetsSextets(b);
    GroupedLength(v);
    BodyPadding(v);
    ReadSpell(v);
  }

  lemma EncodeInjective(a: Bytes, b: Bytes)
    requires Encode(a) == Encode(b)
    ensures a == b
  {
    DecodeEncode(a);
    DecodeEncode(b);
  }

  /** Printed base64 is whole quads over the alphabet, so it never holds the
      separator of the token framing. */
  lemma EncodeShape(b: Bytes)
    ensures Free(Encode(b), ':') && |Encode(b)| % 4 == 0
  {
    OctetsSextets(b);
    GroupedLength(Sextets(b));
    BodyPadding(Sextets(b));
    ReadSpell(Sextets(b));
  }

  /** Decoding accepts several spellings of the same bytes; printing gives the
      accepted text back exactly when its pad bits are zero. */
  lemma EncodeDecode(s: string)
    requires Decode(s).Some?
    ensures Encode(Decode(s).value) == s <==> CanonicalPad(s)
  {
    var v := Read(Body(s)).value;
    SpellRead(Body(s));
    BodyLength(s);
    GroupedLength(v);
    SextetsOctets(v);
    var w := Sextets(Octets(v));
    ReadSpell(w);
    ReadSpell(v);
    SamePadding(Spell(w), Spell(v), Padding(|v|));
  }

  lemma SamePadding(a: string, b: string, p: string)
    requires |a| == |b|
    ensures a + p == b + p <==> a == b
  {
    assert (a + p)[..|a|] == a && (b + p)[..|b|] == b;
  }

  // ----------------------------------------- the coding, by the table of RFC 4648

  /** Table 1 of section 4 of RFC 4648. */
  const ALPHABET: string := UPPER_LETTERS + LOWER_LETTERS + DIGITS + "+/"

  lemma LetterMeans(v: sextet)
    ensures |ALPHABET| == 64 && Letter(v) == ALPHABET[v]
  {
    LetterTables(0);
    if v < 26 {
      LetterTables(v);
      assert ALPHABET[v] == UPPER_LETTERS[v];
    } else if v < 52 {
      LetterTables(v - 26);
      assert ALPHABET[v] == LOWER_LETTERS[v - 26];
    } else if v < 62 {
      DigitMeans(v - 52);
      assert ALPHABET[v] == DIGITS[v - 52];
    }
  }

  /** `c` is the letter of the value `v`. */
  predicate Stands(c: char, v: int) {
    0 <= v < |ALPHABET| && ALPHABET[v] == c
  }

  lemma IndexMeans(c: char, v: int)
    ensures Stands(c, v) <==> Index(c) == Some(v)
    ensures c in ALPHABET <==> Index(c).Some?
  {
    hide Letter, Index;
    LetterMeans(0);
    if 0 <= v < 64 {
      LetterMeans(v);
      IndexLetter(v);
    }
    if Index(c).Some? {
      LetterMeans(Index(c).value);
      LetterIndex(c);
    }
    if c in ALPHABET {
      var w :| 0 <= w < 64 && ALPHABET[w] == c;
      LetterMeans(w);
      IndexLetter(w);
    }
  }

  /** The byte at `k`, or zero past the end. */
  function ByteAt(b: Bytes, k: nat): byte {
    if k < |b| then b[k] else 0
  }

  /** Three bytes as one number of 24 bits, a tail padded with zero bits. */
  function Group(b: Bytes, q: nat): nat {
    ByteAt(b, 3 * q) * 65536 + ByteAt(b, 3 * q + 1) * 256 + ByteAt(b, 3 * q + 2)
  }

  function SextetAt(v: seq<sextet>, k: nat): sextet {
    if k < |v| then v[k] else 0
  }

  /** Four six-bit values as one number of 24 bits. */
  function Quad(v: seq<sextet>, q: nat): nat {
    SextetAt(v, 4 * q) * 262144 + SextetAt(v, 4 * q + 1) * 4096 + SextetAt(v, 4 * q + 2) * 64 + SextetAt(v, 4 * q + 3)
  }

  lemma SixMeans(b0: byte, b1: byte, b2: byte)
    ensures Six0(b0) * 262144 + Six1(b0, b1) * 4096 + Six2(b1, b2) * 64 + Six3(b2) == b0 * 65536 + b1 * 256 + b2
    ensures b2 == 0 ==> Six3(b2) == 0
    ensures b1 == 0 && b2 == 0 ==> Six2(b1, b2) == 0
  {
  }

  /** How many six-bit values `n` bytes fill. */
  function SextetCount(n: nat): nat {
    (4 * n + 2) / 3
  }

  lemma {:induction false} SextetsMean(b: Bytes, q: nat)
    ensures |Sextets(b)| == SextetCount(|b|) && Quad(Sextets(b), q) == Group(b, q)
    decreases |b|
  {
    hide Six0, Six1, Six2, Six3, Quad, Group;
    if |b| <= 3 || q == 0 {
      FirstGroup(b);
      if |b| > 3 {
        SextetsMean(b[3..], 0);
      } else if q > 0 {
        PastTheEnd(b, q);
      }
    } else {
      SextetsMean(b[3..], q - 1);
      assert Sextets(b)[4..] == Sextets(b[3..]);
      QuadShift(Sextets(b), q - 1);
      GroupShift(b, q - 1);
    }
  }

  lemma FirstGroup(b: Bytes)
    ensures Quad(Sextets(b), 0) == Group(b, 0)
    ensures |b| <= 3 ==> |Sextets(b)| == SextetCount(|b|)
  {
    hide Six0, Six1, Six2, Six3;
    SixMeans(ByteAt(b, 0), ByteAt(b, 1), ByteAt(b, 2));
  }

  lemma PastTheEnd(b: Bytes, q: nat)
    requires |b| <= 3 && q > 0 && |Sextets(b)| <= 4
    ensures Quad(Sextets(b), q) == Group(b, q) == 0
  {
    hide Sextets;
  }

  lemma QuadShift(v: seq<sextet>, q: nat)
    requires |v| >= 4
    ensures Quad(v[4..], q) == Quad(v, q + 1)
  {
  }

  lemma GroupShift(b: Bytes, q: nat)
    requires |b| >= 3
    ensures Group(b[3..], q) == Group(b, q + 1)
  {
  }

  /** The bits of group `q` that no byte uses number fewer than this. */
  function Slack(b: Bytes, q: nat): nat {
    if 3 * q + 2 < |b| then 1 else if 3 * q + 1 < |b| then 256 else 65536
  }

  lemma ByteMeans(v0: sextet, v1: sextet, v2: sextet, v3: sextet)
    ensures var n := v0 * 262144 + v1 * 4096 + v2 * 64 + v3;
            && n == Byte0(v0, v1) * 65536 + Byte1(v1, v2) * 256 + Byte2(v2, v3)
            && (v3 == 0 ==> n - 256 < Byte0(v0, v1) * 65536 + Byte1(v1, v2) * 256 <= n)
            && (v2 == 0 && v3 == 0 ==> n - 65536 < Byte0(v0, v1) * 65536 <= n)
  {
  }

  lemma {:induction false} OctetsMean(v: seq<sextet>, q: nat)
    requires Grouped(v)
    ensures |Octets(v)| == 3 * |v| / 4
    ensures 0 <= Quad(v, q) - Group(Octets(v), q) < Slack(Octets(v), q)
    decreases |v|
  {
    hide Byte0, Byte1, Byte2, Quad, Group, Slack;
    if |v| < 4 {
      ShortQuad(v, q);
    } else {
      FirstQuad(v);
      OctetsMean(v[4..], if q == 0 then 0 else q - 1);
      assert Octets(v)[3..] == Octets(v[4..]);
      if q > 0 {
        QuadShift(v, q - 1);
        GroupShift(Octets(v), q - 1);
        SlackShift(Octets(v), q - 1);
      }
    }
  }

  lemma SlackShift(b: Bytes, q: nat)
    requires |b| >= 3
    ensures Slack(b[3..], q) == Slack(b, q + 1)
  {
  }

  lemma FirstQuad(v: seq<sextet>)
    requires |v| >= 4
    ensures Quad(v, 0) == Group(Octets(v), 0) && Slack(Octets(v), 0) == 1
  {
    hide Byte0, Byte1, Byte2;
    ByteMeans(v[0], v[1], v[2], v[3]);
  }

  lemma ShortQuad(v: seq<sextet>, q: nat)
    requires |v| < 4 && |v| != 1
    ensures 0 <= Quad(v, q) - Group(Octets(v), q) < Slack(Octets(v), q)
  {
    hide Byte0, Byte1, Byte2;
    ByteMeans(SextetAt(v, 0), SextetAt(v, 1), SextetAt(v, 2), 0);
  }

  /** Whole quads of which the first `n` characters are letters and the rest, at most two,
      pads. */
  predicate IsBase64(s: string, n: nat) {
    && |s| % 4 == 0 && |s| - 2 <= n <= |s|
    && (forall k :: 0 <= k < n ==> s[k] in ALPHABET)
    && forall k :: n <= k < |s| ==> s[k] == '='
  }

  lemma {:induction false} ReadMeans(s: string)
    ensures Read(s).Some? <==> forall k :: 0 <= k < |s| ==> s[k] in ALPHABET
    ensures Read(s).Some? ==>
              |Read(s).value| == |s| && forall k :: 0 <= k < |s| ==> Stands(s[k], Read(s).value[k])
  {
    hide Index, Stands, ALPHABET;
    if s != "" {
      IndexMeans(s[0], 0);
      if Index(s[0]).Some? {
        IndexMeans(s[0], Index(s[0]).value);
      }
      ReadMeans(s[1..]);
      assert s == [s[0]] + s[1..];
    }
  }

  lemma BodyMeans(s: string, n: nat)
    requires IsBase64(s, n)
    ensures Body(s) == s[..n] && Read(s[..n]).Some?
  {
    ReadMeans(s[..n]);
    IndexMeans('=', 0);
    hide ALPHABET, Read, Index;
    assert n > 0 ==> s[n - 1] in ALPHABET;
  }

  lemma BodyIsBase64(s: string)
    requires |s| % 4 == 0 && Read(Body(s)).Some?
    ensures IsBase64(s, |Body(s)|)
  {
    ReadMeans(Body(s));
    hide ALPHABET, Read;
    assert forall k :: 0 <= k < |Body(s)| ==> s[k] == Body(s)[k];
  }

  /** Which texts are decoded, and into how many bytes. */
  lemma DecodeAccepts(s: string)
    ensures Decode(s).Some? <==> exists n: nat :: IsBase64(s, n)
    ensures forall n: nat :: IsBase64(s, n) ==> Decode(s).Some? && |Decode(s).value| == 3 * n / 4
  {
    hide IsBase64, Read, Body, Octets;
    if |s| % 4 == 0 && Read(Body(s)).Some? {
      BodyIsBase64(s);
    }
    forall n: nat | IsBase64(s, n) ensures Decode(s).Some? && |Decode(s).value| == 3 * n / 4 {
      LettersGroup(s, n);
      BodyMeans(s, n);
      ReadMeans(s[..n]);
      GroupedLength(Read(s[..n]).value);
      OctetsMean(Read(s[..n]).value, 0);
    }
  }

  lemma LettersGroup(s: string, n: nat)
    requires IsBase64(s, n)
    ensures n % 4 != 1 && |s| % 4 == 0 && n <= |s|
  {
  }

  /** `c` is the letter of `v`, or a pad in place of a zero. */
  predicate Reads(c: char, v: int) {
    Stands(c, v) || (c == '=' && v == 0)
  }

  /** The characters of quad `q` stand for these four values. */
  predicate QuadReads(s: string, q: nat, v0: int, v1: int, v2: int, v3: int) {
    && 4 * q + 3 < |s|
    && Reads(s[4 * q], v0) && Reads(s[4 * q + 1], v1) && Reads(s[4 * q + 2], v2) && Reads(s[4 * q + 3], v3)
  }

  lemma ReadsAt(s: string, n: nat, k: nat, v: int)
    requires IsBase64(s, n) && Read(s[..n]).Some? && k < |s| && Reads(s[k], v)
    ensures v == SextetAt(Read(s[..n]).value, k)
  {
    ReadMeans(s[..n]);
    IndexMeans('=', v);
    hide Read, Index, ALPHABET;
    if k < n {
      assert s[..n][k] == s[k];
      IndexMeans(s[k], v);
      IndexMeans(s[k], Read(s[..n]).value[k]);
    }
  }

  lemma QuadIs(s: string, n: nat, q: nat, v0: int, v1: int, v2: int, v3: int)
    requires IsBase64(s, n) && QuadReads(s, q, v0, v1, v2, v3)
    ensures Read(s[..n]).Some?
    ensures v0 * 262144 + v1 * 4096 + v2 * 64 + v3 == Quad(Read(s[..n]).value, q)
  {
    hide IsBase64, Read, Reads;
    BodyMeans(s, n);
    ReadsAt(s, n, 4 * q, v0);
    ReadsAt(s, n, 4 * q + 1, v1);
    ReadsAt(s, n, 4 * q + 2, v2);
    ReadsAt(s, n, 4 * q + 3, v3);
  }

  /** What a decoded quad stands for: its letters, as one number of 24 bits, are the three
      bytes, as one number, plus whatever pad bits the text has in the unused places. */
  lemma DecodeMeans(s: string, n: nat, q: nat, v0: int, v1: int, v2: int, v3: int)
    requires IsBase64(s, n) && QuadReads(s, q, v0, v1, v2, v3)
    ensures Decode(s).Some?
    ensures 0 <= v0 * 262144 + v1 * 4096 + v2 * 64 + v3 - Group(Decode(s).value, q) < Slack(Decode(s).value, q)
  {
    hide IsBase64, QuadReads, Read, Body, Octets, Quad, Group, Slack;
    LettersGroup(s, n);
    QuadIs(s, n, q, v0, v1, v2, v3);
    BodyMeans(s, n);
    ReadMeans(s[..n]);
    GroupedLength(Read(s[..n]).value);
    OctetsMean(Read(s[..n]).value, q);
  }

  /** Printed base64 is the coding of section 4 of RFC 4648: every three bytes, as one
      number of 24 bits, are four letters, the tail filled with zero bits and pads. */
  lemma EncodeMeans(b: Bytes, q: nat, v0: int, v1: int, v2: int, v3: int)
    ensures IsBase64(Encode(b), SextetCount(|b|)) && |Encode(b)| == (|b| + 2) / 3 * 4
    ensures QuadReads(Encode(b), q, v0, v1, v2, v3) ==> v0 * 262144 + v1 * 4096 + v2 * 64 + v3 == Group(b, q)
  {
    hide IsBase64, QuadReads, Read, Body, Octets, Quad, Group, Sextets, Spell, Padding, Decode;
    var v := Sextets(b);
    OctetsSextets(b);
    GroupedLength(v);
    BodyPadding(v);
    ReadSpell(v);
    SextetsMean(b, q);
    BodyIsBase64(Encode(b));
    EncodeLength(b);
    if QuadReads(Encode(b), q, v0, v1, v2, v3) {
      QuadIs(Encode(b), |v|, q, v0, v1, v2, v3);
      assert Encode(b)[..|v|] == Spell(v);
    }
  }

  lemma EncodeLength(b: Bytes)
    requires |Sextets(b)| == SextetCount(|b|) && |Spell(Sextets(b))| == |Sextets(b)|
    ensures |Encode(b)| == (|b| + 2) / 3 * 4
  {
    hide Sextets, Spell;
  }
}
