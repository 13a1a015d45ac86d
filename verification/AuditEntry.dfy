/** The text an audit entry is hashed as: `compute_entry_hash` of
    src/audit/chain.py, with the string escaping of section 7 of RFC 8259 as
    `json.dumps(..., ensure_ascii=False)` writes it. */
module AuditEntry {
  import opened Text

  datatype Entry = Entry(
    sequence: int,
    requester: Option<string>,
    action: string,
    targetType: string,
    targetIdentifier: string,
    result: string,
    createdAt: string)

  function Hex(d: nat): char
    requires d < 16
  {
    if d < 10 then Digit(d) else ('a' as int + d - 10) as char
  }

  function EscapeChar(c: char): string {
    if c == '"' then ['\\', '"']
    else if c == '\\' then ['\\', '\\']
    else if c == '\n' then ['\\', 'n']
    else if c == '\r' then ['\\', 'r']
    else if c == '\t' then ['\\', 't']
    else if c == '\U{8}' then ['\\', 'b']
    else if c == '\U{c}' then ['\\', 'f']
    else if c < ' ' then ['\\', 'u', '0', '0', Hex(c as int / 16), Hex(c as int % 16)]
    else [c]
  }

  function Escape(s: string): string {
    if s == "" then "" else EscapeChar(s[0]) + Escape(s[1..])
  }

  /** A key that opens a string, the escaped value, the closing quote. */
  function Field(key: string, value: string, tail: string): string {
    key + (Escape(value) + ['"'] + tail)
  }

  function RequesterField(requester: Option<string>, tail: string): string {
    match requester
    case None => ",\"requester_email\":" + (['n'] + ("ull" + tail))
    case Some(email) => ",\"requester_email\":" + (['"'] + (Escape(email) + ['"'] + tail))
  }

  function SequenceField(sequence: int, tail: string): string {
    ",\"sequence\":" + (DecimalInt(sequence) + [','] + tail)
  }

  /** The entry as compact JSON, keys in sorted order. */
  function Canonical(e: Entry): string {
    ['{'] + Field("\"action\":\"", e.action, AfterAction(e))
  }

  function AfterAction(e: Entry): string {
    Field(",\"created_at\":\"", e.createdAt, AfterCreated(e))
  }

  function AfterCreated(e: Entry): string {
    RequesterField(e.requester, AfterRequester(e))
  }

  function AfterRequester(e: Entry): string {
    Field(",\"result\":\"", e.result, AfterResult(e))
  }

  function AfterResult(e: Entry): string {
    SequenceField(e.sequence, AfterSequence(e))
  }

  function AfterSequence(e: Entry): string {
    Field("\"target_identifier\":\"", e.targetIdentifier, AfterIdentifier(e))
  }

  function AfterIdentifier(e: Entry): string {
    Field(",\"target_type\":\"", e.targetType, "}")
  }

  /** The bytes that are hashed. */
  function Preimage(prevHash: string, e: Entry): string {
    prevHash + ['|'] + Canonical(e)
  }

  // ------------------------------------------------------- reading a field back

  /** No escape is the beginning of another one, and none starts with a quote. */
  lemma EscapePrefixFree(c: char, c': char, x: string, x': string)
    requires EscapeChar(c) + x == EscapeChar(c') + x'
    ensures c == c' && x == x'
  {
    var s, s' := EscapeChar(c) + x, EscapeChar(c') + x';
    EscapeHead(c, x);
    EscapeHead(c', x');
    if c < ' ' && c' < ' ' {
      EscapeControl(c, x);
      EscapeControl(c', x');
    }
    assert c == c';
    DropHead(EscapeChar(c), x, x');
  }

  lemma EscapeHead(c: char, x: string)
    ensures var s := EscapeChar(c) + x;
            && (s[0] != '\\' ==> s[0] == c && c >= ' ')
            && (s[0] == '\\' ==> |s| > 1 && (s[1] == '"' <==> c == '"') && (s[1] == '\\' <==> c == '\\')
                                 && (c >= ' ' ==> c == s[1]))
            && s[0] != '"'
  {
  }

  lemma EscapeControl(c: char, x: string)
    requires c < ' '
    ensures var s := EscapeChar(c) + x;
            && |s| > 1
            && (s[1] == 'n' <==> c == '\n') && (s[1] == 'r' <==> c == '\r') && (s[1] == 't' <==> c == '\t')
            && (s[1] == 'b' <==> c == '\U{8}') && (s[1] == 'f' <==> c == '\U{c}')
            && (s[1] == 'u' ==> |s| > 5 && s[4] == Hex(c as int / 16) && s[5] == Hex(c as int % 16))
            && s[1] in "nrtbfu"
  {
  }

  /** The closing quote is found without ambiguity. */
  lemma {:induction false} EscapeCut(v: string, t: string, v': string, t': string)
    requires Escape(v) + ['"'] + t == Escape(v') + ['"'] + t'
    ensures v == v' && t == t'
    decreases |v| + |v'|
  {
    hide EscapeChar;
    Rest(v, t);
    Rest(v', t');
    var s := Escape(v) + ['"'] + t;
    if v != "" {
      EscapeHead(v[0], Escape(v[1..]) + ['"'] + t);
    }
    if v' != "" {
      EscapeHead(v'[0], Escape(v'[1..]) + ['"'] + t');
    }
    if v == "" || v' == "" {
      assert v == v' == "";
      assert s[1..] == t == t';
    } else {
      EscapePrefixFree(v[0], v'[0], Escape(v[1..]) + ['"'] + t, Escape(v'[1..]) + ['"'] + t');
      EscapeCut(v[1..], t, v'[1..], t');
      assert v == [v[0]] + v[1..] && v' == [v'[0]] + v'[1..];
    }
  }

  lemma Rest(v: string, t: string)
    ensures v == "" ==> Escape(v) + ['"'] + t == ['"'] + t
    ensures v != "" ==> Escape(v) + ['"'] + t == EscapeChar(v[0]) + (Escape(v[1..]) + ['"'] + t)
  {
  }

  lemma FieldInjective(key: string, v: string, t: string, v': string, t': string)
    requires Field(key, v, t) == Field(key, v', t')
    ensures v == v' && t == t'
  {
    DropHead(key, Escape(v) + ['"'] + t, Escape(v') + ['"'] + t');
    EscapeCut(v, t, v', t');
  }

  lemma RequesterInjective(r: Option<string>, t: string, r': Option<string>, t': string)
    requires RequesterField(r, t) == RequesterField(r', t')
    ensures r == r' && t == t'
  {
    var key := ",\"requester_email\":";
    var s, s' := RequesterField(r, t), RequesterField(r', t');
    assert r.None? <==> s[|key|] == 'n';
    assert r'.None? <==> s'[|key|] == 'n';
    if r.None? {
      DropHead(key, ['n'] + ("ull" + t), ['n'] + ("ull" + t'));
      DropHead(['n'], "ull" + t, "ull" + t');
      DropHead("ull", t, t');
    } else {
      var v, v' := r.value, r'.value;
      DropHead(key, ['"'] + (Escape(v) + ['"'] + t), ['"'] + (Escape(v') + ['"'] + t'));
      DropHead(['"'], Escape(v) + ['"'] + t, Escape(v') + ['"'] + t');
      EscapeCut(v, t, v', t');
    }
  }

  lemma SequenceInjective(n: int, t: string, n': int, t': string)
    requires SequenceField(n, t) == SequenceField(n', t')
    ensures n == n' && t == t'
  {
    DropHead(",\"sequence\":", DecimalInt(n) + [','] + t, DecimalInt(n') + [','] + t');
    DecimalIntFree(n, ',');
    DecimalIntFree(n', ',');
    FirstCut(DecimalInt(n), t, DecimalInt(n'), t', ',');
    DecimalIntInjective(n, n');
  }

  /** Equal canonical texts come from equal entries, whatever quotes, backslashes
      or control characters the fields hold. */
  lemma CanonicalInjective(e: Entry, e': Entry)
    requires Canonical(e) == Canonical(e')
    ensures e == e'
  {
    hide Field, RequesterField, SequenceField;
    DropHead(['{'], Field("\"action\":\"", e.action, AfterAction(e)),
              Field("\"action\":\"", e'.action, AfterAction(e')));
    FieldInjective("\"action\":\"", e.action, AfterAction(e), e'.action, AfterAction(e'));
    FieldInjective(",\"created_at\":\"", e.createdAt, AfterCreated(e), e'.createdAt, AfterCreated(e'));
    RequesterInjective(e.requester, AfterRequester(e), e'.requester, AfterRequester(e'));
    FieldInjective(",\"result\":\"", e.result, AfterResult(e), e'.result, AfterResult(e'));
    SequenceInjective(e.sequence, AfterSequence(e), e'.sequence, AfterSequence(e'));
    FieldInjective("\"target_identifier\":\"", e.targetIdentifier, AfterIdentifier(e),
                   e'.targetIdentifier, AfterIdentifier(e'));
    FieldInjective(",\"target_type\":\"", e.targetType, "}", e'.targetType, "}");
  }

  // ------------------------------------------- where the canonical text can start

  /** The three characters every canonical text opens with. */
  predicate OpensAt(s: string, k: nat) {
    k + 2 < |s| && s[k] == '{' && s[k + 1] == '"' && s[k + 2] == 'a'
  }

  ghost predicate NeverOpens(s: string) {
    forall k: nat :: !OpensAt(s, k)
  }

  lemma PrefixNeverOpens(key: string, s: string)
    requires Free(key, '{') && NeverOpens(s)
    ensures NeverOpens(key + s)
  {
    forall k: nat ensures !OpensAt(key + s, k) {
      if k < |key| {
        assert (key + s)[k] == key[k];
      } else {
        assert !OpensAt(s, k - |key|);
      }
    }
  }

  predicate Closes(t: string) {
    t != "" && t[0] in ",}"
  }

  lemma {:induction false} EscapeNeverOpens(v: string, t: string)
    requires NeverOpens(t) && Closes(t)
    ensures NeverOpens(Escape(v) + ['"'] + t)
  {
    Rest(v, t);
    if v == "" {
      PrefixNeverOpens(['"'], t);
    } else {
      var s := Escape(v[1..]) + ['"'] + t;
      EscapeNeverOpens(v[1..], t);
      Rest(v[1..], t);
      if v[0] != '{' {
        EscapeFree(v[0]);
        PrefixNeverOpens(EscapeChar(v[0]), s);
      } else {
        if v[1..] != "" {
          EscapeHead(v[1], Escape(v[1..][1..]) + ['"'] + t);
        }
        BraceNeverOpens(s);
      }
    }
  }

  lemma EscapeFree(c: char)
    requires c != '{'
    ensures Free(EscapeChar(c), '{')
  {
  }

  lemma BraceNeverOpens(s: string)
    requires NeverOpens(s) && |s| >= 2 && (s[0] == '"' ==> s[1] != 'a')
    ensures NeverOpens(['{'] + s)
  {
    forall k: nat ensures !OpensAt(['{'] + s, k) {
      if k > 0 {
        assert !OpensAt(s, k - 1);
      }
    }
  }

  lemma FieldNeverOpens(key: string, v: string, t: string)
    requires Free(key, '{') && NeverOpens(t) && Closes(t)
    ensures NeverOpens(Field(key, v, t))
    ensures key != "" && key[0] == ',' ==> Closes(Field(key, v, t))
  {
    EscapeNeverOpens(v, t);
    PrefixNeverOpens(key, Escape(v) + ['"'] + t);
  }

  lemma RequesterNeverOpens(r: Option<string>, t: string)
    requires NeverOpens(t) && Closes(t)
    ensures NeverOpens(RequesterField(r, t)) && Closes(RequesterField(r, t))
  {
    var key := ",\"requester_email\":";
    if r.None? {
      PrefixNeverOpens("ull", t);
      PrefixNeverOpens(['n'], "ull" + t);
      PrefixNeverOpens(key, ['n'] + ("ull" + t));
    } else {
      EscapeNeverOpens(r.value, t);
      PrefixNeverOpens(['"'], Escape(r.value) + ['"'] + t);
      PrefixNeverOpens(key, ['"'] + (Escape(r.value) + ['"'] + t));
    }
  }

  lemma SequenceNeverOpens(n: int, t: string)
    requires NeverOpens(t)
    ensures NeverOpens(SequenceField(n, t)) && Closes(SequenceField(n, t))
  {
    DecimalIntFree(n, '{');
    PrefixNeverOpens([','], t);
    PrefixNeverOpens(DecimalInt(n), [','] + t);
    assert DecimalInt(n) + ([','] + t) == DecimalInt(n) + [','] + t;
    PrefixNeverOpens(",\"sequence\":", DecimalInt(n) + [','] + t);
  }

  /** Past its first brace, a canonical text never looks like the start of one. */
  lemma CanonicalOpensOnce(e: Entry)
    ensures OpensAt(Canonical(e), 0)
    ensures forall k: nat :: k > 0 ==> !OpensAt(Canonical(e), k)
  {
    LastBrace();
    ActionHead(e);
    hide Escape, EscapeChar, Field, RequesterField, SequenceField, NeverOpens, Closes;
    FieldNeverOpens(",\"target_type\":\"", e.targetType, "}");
    FieldNeverOpens("\"target_identifier\":\"", e.targetIdentifier, AfterIdentifier(e));
    SequenceNeverOpens(e.sequence, AfterSequence(e));
    FieldNeverOpens(",\"result\":\"", e.result, AfterResult(e));
    RequesterNeverOpens(e.requester, AfterRequester(e));
    FieldNeverOpens(",\"created_at\":\"", e.createdAt, AfterCreated(e));
    FieldNeverOpens("\"action\":\"", e.action, AfterAction(e));
    BraceOpensOnce(Field("\"action\":\"", e.action, AfterAction(e)));
  }

  lemma LastBrace()
    ensures NeverOpens("}") && Closes("}")
  {
  }

  lemma ActionHead(e: Entry)
    ensures var s := Field("\"action\":\"", e.action, AfterAction(e)); |s| > 1 && s[0] == '"' && s[1] == 'a'
  {
    hide AfterAction;
    var s := Field("\"action\":\"", e.action, AfterAction(e));
    assert s[..2] == "\"a";
    assert s[0] == s[..2][0] && s[1] == s[..2][1];
  }

  lemma BraceOpensOnce(s: string)
    requires NeverOpens(s)
    ensures forall k: nat :: k > 0 ==> !OpensAt(['{'] + s, k)
  {
    forall k: nat | k > 0 ensures !OpensAt(['{'] + s, k) {
      assert !OpensAt(s, k - 1);
    }
  }

  /** The hashed text determines the previous hash and the whole entry, for every
      previous hash: nothing is assumed about its length or characters. */
  lemma PreimageInjective(p: string, e: Entry, p': string, e': Entry)
    requires Preimage(p, e) == Preimage(p', e')
    ensures p == p' && e == e'
  {
    SameStart(p, e, p', e');
    SameStart(p', e', p, e);
    hide Canonical;
    assert Preimage(p, e)[..|p|] == p && Preimage(p', e')[..|p'|] == p';
    DropHead(p + ['|'], Canonical(e), Canonical(e'));
    CanonicalInjective(e, e');
  }

  lemma SameStart(p: string, e: Entry, p': string, e': Entry)
    requires Preimage(p, e) == Preimage(p', e')
    ensures |p| >= |p'|
  {
    CanonicalOpensOnce(e);
    CanonicalOpensOnce(e');
    hide Canonical;
    var s, n, n' := Preimage(p, e), |p| + 1, |p'| + 1;
    assert s[n..] == Canonical(e) && s[n'..] == Canonical(e');
    assert OpensAt(s[n'..], 0);
    assert n' > n ==> OpensAt(s[n..], n' - n);
  }

  // -------------------------------------------------- the text, read as JSON is read

  function HexValue(c: char): Option<nat> {
    if '0' <= c <= '9' then Some(c as int - '0' as int)
    else if 'a' <= c <= 'f' then Some(c as int - 'a' as int + 10)
    else if 'A' <= c <= 'F' then Some(c as int - 'A' as int + 10)
    else None
  }

  /** The character four hexadecimal digits name; surrogates name none. */
  function CodePoint(a: char, b: char, c: char, d: char): Option<char> {
    if HexValue(a).None? || HexValue(b).None? || HexValue(c).None? || HexValue(d).None? then None
    else
      var n := HexValue(a).value * 4096 + HexValue(b).value * 256 + HexValue(c).value * 16 + HexValue(d).value;
      if n < 0xD800 || 0xE000 <= n < 0x1_0000 then Some(n as char) else None
  }

  /** The character a two-character escape names. */
  function Named(c: char): Option<char> {
    match c
    case '"' => Some('"')
    case '\\' => Some('\\')
    case '/' => Some('/')
    case 'b' => Some('\U{8}')
    case 'f' => Some('\U{c}')
    case 'n' => Some('\n')
    case 'r' => Some('\r')
    case 't' => Some('\t')
    case _ => None
  }

  /** The string a JSON reader finds between two quotes (section 7 of RFC 8259). */
  function Unescape(s: string): Option<string> {
    if s == "" then Some("")
    else if s[0] == '"' || s[0] < ' ' then None
    else if s[0] != '\\' then Prepend(s[0], Unescape(s[1..]))
    else if |s| >= 2 && Named(s[1]).Some? then Prepend(Named(s[1]).value, Unescape(s[2..]))
    else if |s| >= 6 && s[1] == 'u' && CodePoint(s[2], s[3], s[4], s[5]).Some? then
      Prepend(CodePoint(s[2], s[3], s[4], s[5]).value, Unescape(s[6..]))
    else None
  }

  function Prepend(c: char, rest: Option<string>): Option<string> {
    if rest.None? then None else Some([c] + rest.value)
  }

  lemma HexReads(c: char)
    requires c < ' '
    ensures CodePoint('0', '0', Hex(c as int / 16), Hex(c as int % 16)) == Some(c)
  {
  }

  lemma UnescapeOne(c: char, rest: string)
    ensures Unescape(EscapeChar(c) + rest) == Prepend(c, Unescape(rest))
  {
    hide CodePoint, Hex;
    var s := EscapeChar(c) + rest;
    assert s[|EscapeChar(c)|..] == rest;
    if c < ' ' {
      HexReads(c);
    }
  }

  /** Reading gives back what was escaped. */
  lemma {:induction false} UnescapeEscape(v: string)
    ensures Unescape(Escape(v)) == Some(v)
  {
    hide Unescape, EscapeChar;
    if v == "" {
      UnescapeEmpty();
    } else {
      UnescapeEscape(v[1..]);
      UnescapeOne(v[0], Escape(v[1..]));
      assert v == [v[0]] + v[1..];
    }
  }

  lemma UnescapeEmpty()
    ensures Unescape("") == Some("")
  {
  }

  /** Only quotes, backslashes and control characters are escaped, and in the short form
      where there is one. */
  lemma EscapeShape(c: char)
    ensures EscapeChar(c) == [c] <==> c >= ' ' && c != '"' && c != '\\'
    ensures |EscapeChar(c)| == 2 <==> c in "\"\\\n\r\t\U{8}\U{c}"
    ensures |EscapeChar(c)| in {1, 2, 6}
  {
  }

  lemma AfterField(p: string, key: string, v: string, tail: string)
    ensures p + Field(key, v, tail) == p + key + Escape(v) + "\"" + tail
  {
    hide Escape;
  }

  lemma AfterRequesterField(p: string, requester: Option<string>, tail: string)
    ensures p + RequesterField(requester, tail)
         == p + ",\"requester_email\":"
            + (if requester.None? then "null" else "\"" + Escape(requester.value) + "\"") + tail
  {
    hide Escape;
    assert ['n'] + "ull" == "null";
  }

  lemma AfterSequenceField(p: string, sequence: int, tail: string)
    ensures p + SequenceField(sequence, tail) == p + ",\"sequence\":" + DecimalInt(sequence) + "," + tail
  {
    hide DecimalInt;
  }

  /** The hashed text is the compact JSON object of the entry, its keys in sorted order. */
  lemma CanonicalMeans(e: Entry)
    ensures Canonical(e)
         == "{" + "\"action\":\"" + Escape(e.action) + "\""
            + ",\"created_at\":\"" + Escape(e.createdAt) + "\""
            + ",\"requester_email\":"
            + (if e.requester.None? then "null" else "\"" + Escape(e.requester.value) + "\"")
            + ",\"result\":\"" + Escape(e.result) + "\""
            + ",\"sequence\":" + DecimalInt(e.sequence) + ","
            + "\"target_identifier\":\"" + Escape(e.targetIdentifier) + "\""
            + ",\"target_type\":\"" + Escape(e.targetType) + "\"" + "}"
  {
    hide Escape, DecimalInt, Field, RequesterField, SequenceField;
    AfterField("{", "\"action\":\"", e.action, AfterAction(e));
    var p := "{" + "\"action\":\"" + Escape(e.action) + "\"";
    AfterField(p, ",\"created_at\":\"", e.createdAt, AfterCreated(e));
    p := p + ",\"created_at\":\"" + Escape(e.createdAt) + "\"";
    AfterRequesterField(p, e.requester, AfterRequester(e));
    p := p + ",\"requester_email\":"
         + (if e.requester.None? then "null" else "\"" + Escape(e.requester.value) + "\"");
    AfterField(p, ",\"result\":\"", e.result, AfterResult(e));
    p := p + ",\"result\":\"" + Escape(e.result) + "\"";
    AfterSequenceField(p, e.sequence, AfterSequence(e));
    p := p + ",\"sequence\":" + DecimalInt(e.sequence) + ",";
    AfterField(p, "\"target_identifier\":\"", e.targetIdentifier, AfterIdentifier(e));
    p := p + "\"target_identifier\":\"" + Escape(e.targetIdentifier) + "\"";
    AfterField(p, ",\"target_type\":\"", e.targetType, "}");
  }
}
