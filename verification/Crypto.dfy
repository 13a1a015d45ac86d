/** AES-256-GCM as src/core/crypto.py wraps it, over an ideal cipher: the ledger
    lists everything ever sealed, and opening succeeds on a ledger entry only
    (section 7 of NIST SP 800-38D).  What belongs to the program is modelled
    exactly: the length guards and the split and rejoin of ciphertext and tag. */
module Crypto {
  import opened Text
  import opened Base64

  const KEY_LENGTH := 32
  const NONCE_LENGTH := 12
  const TAG_LENGTH := 16

  datatype Blob = Blob(nonce: Bytes, ciphertext: Bytes, tag: Bytes)

  /** One call of the raw cipher: `body` is its output, ciphertext then tag. */
  datatype Sealed = Sealed(key: Bytes, nonce: Bytes, body: Bytes, aad: string)

  type Ledger = map<Sealed, Bytes>

  /** What chance and the raw cipher contribute to one encryption. */
  datatype Draw = Draw(nonce: Bytes, body: Bytes)

  datatype Opened = Plain(plaintext: Bytes) | InvalidTag | ValueError

  /** A draw as chance gives it: a nonce never used before, a body with its tag. */
  predicate FreshDraw(ledger: Ledger, draw: Draw) {
    && |draw.nonce| == NONCE_LENGTH
    && |draw.body| >= TAG_LENGTH
    && forall box :: box in ledger ==> box.nonce != draw.nonce
  }

  function Box(key: Bytes, aad: string, draw: Draw): Sealed {
    Sealed(key, draw.nonce, draw.body, aad)
  }

  /** `encrypted[:-16]` and `encrypted[-16:]`. */
  function Pack(draw: Draw): Blob {
    var cut := if |draw.body| < TAG_LENGTH then 0 else |draw.body| - TAG_LENGTH;
    Blob(draw.nonce, draw.body[..cut], draw.body[cut..])
  }

  /** None stands for the ValueError of a key that is not 256 bits long. */
  function Encrypt(ledger: Ledger, key: Bytes, plaintext: Bytes, aad: string, draw: Draw)
    : Option<(Ledger, Blob)>
  {
    if |key| != KEY_LENGTH then None
    else Some((ledger[Box(key, aad, draw) := plaintext], Pack(draw)))
  }

  function Decrypt(ledger: Ledger, key: Bytes, blob: Blob, aad: string): Opened {
    if |key| != KEY_LENGTH || |blob.nonce| != NONCE_LENGTH || |blob.tag| != TAG_LENGTH then ValueError
    else
      var box := Sealed(key, blob.nonce, blob.ciphertext + blob.tag, aad);
      if box in ledger then Plain(ledger[box]) else InvalidTag
  }

  /** Every earlier entry is still there with the same plaintext. */
  predicate Grows(before: Ledger, after: Ledger) {
    forall box :: box in before ==> box in after && after[box] == before[box]
  }

  lemma PackRejoins(draw: Draw)
    requires |draw.body| >= TAG_LENGTH
    ensures Pack(draw).ciphertext + Pack(draw).tag == draw.body
    ensures |Pack(draw).tag| == TAG_LENGTH
  {
  }

  /** What was encrypted opens again, for as long as the ledger only grows. */
  lemma EncryptedOpens(ledger: Ledger, key: Bytes, plaintext: Bytes, aad: string, draw: Draw, later: Ledger)
    requires FreshDraw(ledger, draw) && |key| == KEY_LENGTH
    requires Grows(Encrypt(ledger, key, plaintext, aad, draw).value.0, later)
    ensures Grows(ledger, later)
    ensures Decrypt(later, key, Pack(draw), aad) == Plain(plaintext)
  {
    PackRejoins(draw);
    assert Box(key, aad, draw) in Encrypt(ledger, key, plaintext, aad, draw).value.0;
  }

  // ------------------------------------------------- blobs kept as table columns

  datatype Columns = Columns(nonce: string, ciphertext: string, tag: string)

  function ToColumns(blob: Blob): Columns {
    Columns(Encode(blob.nonce), Encode(blob.ciphertext), Encode(blob.tag))
  }

  /** Decode the columns and decrypt; base64 faults are ValueErrors like the rest. */
  function OpenColumns(ledger: Ledger, key: Bytes, columns: Columns, aad: string): Opened {
    var nonce, ciphertext, tag := Decode(columns.nonce), Decode(columns.ciphertext), Decode(columns.tag);
    if nonce.None? || ciphertext.None? || tag.None? then ValueError
    else Decrypt(ledger, key, Blob(nonce.value, ciphertext.value, tag.value), aad)
  }

  lemma ColumnsOpen(ledger: Ledger, key: Bytes, blob: Blob, aad: string)
    ensures OpenColumns(ledger, key, ToColumns(blob), aad) == Decrypt(ledger, key, blob, aad)
  {
    DecodeEncode(blob.nonce);
    DecodeEncode(blob.ciphertext);
    DecodeEncode(blob.tag);
  }

  /** A row that opens keeps opening while the ledger grows. */
  lemma OpenColumnsGrows(before: Ledger, after: Ledger, key: Bytes, columns: Columns, aad: string)
    requires Grows(before, after) && OpenColumns(before, key, columns, aad).Plain?
    ensures OpenColumns(after, key, columns, aad) == OpenColumns(before, key, columns, aad)
  {
  }

  /** Whatever opens was sealed under exactly this key, associated data and nonce. */
  lemma OpenedWasSealed(ledger: Ledger, key: Bytes, columns: Columns, aad: string)
    requires OpenColumns(ledger, key, columns, aad).Plain?
    ensures exists box :: box in ledger && box.key == key && box.aad == aad
                       && Decode(columns.nonce) == Some(box.nonce)
                       && ledger[box] == OpenColumns(ledger, key, columns, aad).plaintext
  {
    var blob := Blob(Decode(columns.nonce).value, Decode(columns.ciphertext).value, Decode(columns.tag).value);
    assert Sealed(key, blob.nonce, blob.ciphertext + blob.tag, aad) in ledger;
  }

  /** The length guards: keys of 32 bytes, nonces of 12, tags of 16, and nothing else is
      refused before the cipher is asked. */
  lemma LengthsChecked(ledger: Ledger, key: Bytes, plaintext: Bytes, blob: Blob, aad: string, draw: Draw)
    ensures Encrypt(ledger, key, plaintext, aad, draw).Some? <==> |key| == 32
    ensures Decrypt(ledger, key, blob, aad).ValueError? <==> |key| != 32 || |blob.nonce| != 12 || |blob.tag| != 16
  {
  }
}
