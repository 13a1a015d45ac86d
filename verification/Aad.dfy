/** Associated data of every AES-GCM call of the program: plain colon-joined
    text whose first part, the owner, may itself hold colons. */
module Aad {
  import opened Text
  import opened KvPaths
  import opened TransitToken

  const DEK_WRAP_AAD := "mini-vault:dek-wrap:v1"

  function VersionTag(version: int): string {
    "v" + DecimalInt(version)
  }

  /** `KvService._aad`. */
  function KvAad(owner: string, path: string, version: int): string {
    ("kv:" + owner + ":" + path) + [':'] + VersionTag(version)
  }

  /** `signing_algorithm or '-'`. */
  function AlgorithmText(algorithm: Option<string>): string {
    if algorithm.None? || algorithm.value == "" then "-" else algorithm.value
  }

  /** `TransitService._key_aad`. */
  function KeyAad(owner: string, name: string, usage: string, algorithm: Option<string>, version: int): string {
    (((("transit-key:" + owner) + [':'] + name) + [':'] + usage) + [':'] + AlgorithmText(algorithm))
    + [':'] + VersionTag(version)
  }

  /** `TransitService._data_aad`. */
  function DataAad(owner: string, name: string, version: int): string {
    (("transit-data:" + owner) + [':'] + name) + [':'] + VersionTag(version)
  }

  lemma VersionTagCut(version: int, version': int)
    ensures Free(VersionTag(version), ':')
    ensures VersionTag(version) == VersionTag(version') <==> version == version'
  {
    DecimalIntFree(version, ':');
    DecimalIntInjective(version, version');
    assert VersionTag(version)[1..] == DecimalInt(version);
    assert VersionTag(version')[1..] == DecimalInt(version');
  }

  /** The KV text determines owner, path and version, although owner and path
      may both hold colons: the first slash of the text ends `secret`. */
  lemma KvAadInjective(owner: string, path: string, version: int, owner': string, path': string, version': int)
    requires Authorized(owner, path) && Authorized(owner', path')
    requires KvAad(owner, path, version) == KvAad(owner', path', version')
    ensures owner == owner' && path == path' && version == version'
  {
    AuthorizedShape(owner, path);
    AuthorizedShape(owner', path');
    VersionTagCut(version, version');
    VersionTagCut(version', version);
    KvFront(owner, path);
    KvFront(owner', path');
    hide Authorized, VersionTag;
    LastCut("kv:" + owner + ":" + path, VersionTag(version), "kv:" + owner' + ":" + path', VersionTag(version'), ':');
    var a, a' := "kv:" + (owner + ":secret"), "kv:" + (owner' + ":secret");
    FirstCut(a, path[7..], a', path'[7..], '/');
    DropHead("kv:", owner + ":secret", owner' + ":secret");
    DropTail(owner, owner', ":secret");
    assert path == "secret/" + path[7..] && path' == "secret/" + path'[7..];
  }

  lemma KvFront(owner: string, path: string)
    requires Free(owner, '/') && HasPrefix(path, PATH_PREFIX)
    ensures "kv:" + owner + ":" + path == ("kv:" + (owner + ":secret")) + ['/'] + path[7..]
    ensures Free("kv:" + (owner + ":secret"), '/')
  {
    assert path == ("secret" + ['/']) + path[7..];
  }

  lemma DropTail(a: string, b: string, tail: string)
    requires a + tail == b + tail
    ensures a == b
  {
    assert |a| == |b|;
    assert (a + tail)[..|a|] == a && (b + tail)[..|a|] == b;
  }

  /** The data text determines owner, name and version. */
  lemma DataAadInjective(owner: string, name: string, version: int, owner': string, name': string, version': int)
    requires ValidName(name) && ValidName(name')
    requires DataAad(owner, name, version) == DataAad(owner', name', version')
    ensures owner == owner' && name == name' && version == version'
  {
    NameFree(name);
    NameFree(name');
    VersionTagCut(version, version');
    VersionTagCut(version', version);
    hide ValidName, VersionTag;
    var a, a' := "transit-data:" + owner, "transit-data:" + owner';
    LastCut(a + [':'] + name, VersionTag(version), a' + [':'] + name', VersionTag(version'), ':');
    LastCut(a, name, a', name', ':');
    DropHead("transit-data:", owner, owner');
  }

  /** The key text determines every part when name, usage and algorithm hold no
      colon: owner, name, usage and version outright, and the algorithm as far
      as it is printed. */
  lemma KeyAadInjective(owner: string, name: string, usage: string, algorithm: Option<string>, version: int,
                        owner': string, name': string, usage': string, algorithm': Option<string>, version': int)
    requires ValidName(name) && Free(usage, ':') && Free(AlgorithmText(algorithm), ':')
    requires ValidName(name') && Free(usage', ':') && Free(AlgorithmText(algorithm'), ':')
    requires KeyAad(owner, name, usage, algorithm, version) == KeyAad(owner', name', usage', algorithm', version')
    ensures owner == owner' && name == name' && usage == usage' && version == version'
    ensures AlgorithmText(algorithm) == AlgorithmText(algorithm')
  {
    NameFree(name);
    NameFree(name');
    VersionTagCut(version, version');
    VersionTagCut(version', version);
    hide ValidName, VersionTag, AlgorithmText;
    var a, a' := "transit-key:" + owner, "transit-key:" + owner';
    var b, b' := a + [':'] + name, a' + [':'] + name';
    var c, c' := b + [':'] + usage, b' + [':'] + usage';
    var t, t' := AlgorithmText(algorithm), AlgorithmText(algorithm');
    LastCut(c + [':'] + t, VersionTag(version), c' + [':'] + t', VersionTag(version'), ':');
    LastCut(c, t, c', t', ':');
    LastCut(b, usage, b', usage', ':');
    LastCut(a, name, a', name', ':');
    DropHead("transit-key:", owner, owner');
  }

  /** The four kinds of associated data never coincide. */
  lemma AadKindsDisjoint(owner: string, path: string, version: int,
                         owner': string, name: string, usage: string, algorithm: Option<string>, version': int,
                         owner'': string, name'': string, version'': int)
    ensures KvAad(owner, path, version) != KeyAad(owner', name, usage, algorithm, version')
    ensures KvAad(owner, path, version) != DataAad(owner'', name'', version'')
    ensures KeyAad(owner', name, usage, algorithm, version') != DataAad(owner'', name'', version'')
    ensures DEK_WRAP_AAD !in {KvAad(owner, path, version), DataAad(owner'', name'', version''),
                              KeyAad(owner', name, usage, algorithm, version')}
  {
    KvHead(owner, path, version);
    KeyHead(owner', name, usage, algorithm, version');
    DataHead(owner'', name'', version'');
    hide KvAad, KeyAad, DataAad;
  }

  lemma KvHead(owner: string, path: string, version: int)
    ensures |KvAad(owner, path, version)| > 0 && KvAad(owner, path, version)[0] == 'k'
  {
  }

  lemma KeyHead(owner: string, name: string, usage: string, algorithm: Option<string>, version: int)
    ensures var s := KeyAad(owner, name, usage, algorithm, version); |s| > 8 && s[0] == 't' && s[8] == 'k'
  {
    var s := KeyAad(owner, name, usage, algorithm, version);
    assert s[..12] == "transit-key:";
    assert s[8] == s[..12][8];
  }

  lemma DataHead(owner: string, name: string, version: int)
    ensures var s := DataAad(owner, name, version); |s| > 8 && s[0] == 't' && s[8] == 'd'
  {
    var s := DataAad(owner, name, version);
    assert s[..13] == "transit-data:";
    assert s[8] == s[..13][8];
  }

  /** The three texts written out. */
  lemma AadTexts(owner: string, path: string, name: string, usage: string, algorithm: Option<string>, version: int)
    ensures KvAad(owner, path, version) == "kv:" + owner + ":" + path + ":v" + DecimalInt(version)
    ensures DataAad(owner, name, version) == "transit-data:" + owner + ":" + name + ":v" + DecimalInt(version)
    ensures KeyAad(owner, name, usage, algorithm, version)
         == "transit-key:" + owner + ":" + name + ":" + usage + ":"
            + (if algorithm == None || algorithm == Some("") then "-" else algorithm.value)
            + ":v" + DecimalInt(version)
  {
    hide DecimalInt;
    assert ":v" == [':'] + "v" && ":" == [':'];
  }
}
