/** Character-level vocabulary shared by every encoder of the vault: decimal
    numerals, splitting at a separator, trimming and ASCII case mapping. */
module Text {

  datatype Option<+T> = None | Some(value: T)

  predicate IsDigit(c: char) {
    '0' <= c <= '9'
  }

  predicate AllDigits(s: string) {
    forall k :: 0 <= k < |s| ==> IsDigit(s[k])
  }

  predicate Free(s: string, c: char) {
    forall k :: 0 <= k < |s| ==> s[k] != c
  }

  function Digit(d: nat): char
    requires d < 10
  {
    ('0' as int + d) as char
  }

  /** The numeral `str(n)` prints. */
  function Decimal(n: nat): string {
    if n < 10 then [Digit(n)] else Decimal(n / 10) + [Digit(n % 10)]
  }

  /** The numeral `str(i)` prints for any integer. */
  function DecimalInt(i: int): string {
    if i < 0 then "-" + Decimal(-i) else Decimal(i)
  }

  /** The number `int(s)` reads. */
  function Value(s: string): nat
    requires AllDigits(s)
  {
    if s == "" then 0 else 10 * Value(s[..|s| - 1]) + (s[|s| - 1] as int - '0' as int)
  }

  function Pow10(k: nat): nat {
    if k == 0 then 1 else 10 * Pow10(k - 1)
  }

  lemma {:induction false} DecimalReads(n: nat)
    ensures AllDigits(Decimal(n)) && Value(Decimal(n)) == n
    ensures |Decimal(n)| > 0 && (Decimal(n)[0] == '0' <==> n == 0)
  {
    if n >= 10 {
      DecimalReads(n / 10);
      var head := Decimal(n / 10);
      assert Decimal(n)[..|head|] == head;
    }
  }

  lemma {:induction false} DecimalPrints(s: string)
    requires AllDigits(s) && |s| > 0 && (s[0] != '0' || |s| == 1)
    ensures Decimal(Value(s)) == s
  {
    var head, last := s[..|s| - 1], s[|s| - 1];
    if head == "" {
      assert Value(head) == 0 && s == [last];
    } else {
      DecimalPrints(head);
      DecimalReads(Value(head));
      assert head[0] == s[0];
      assert Value(s) / 10 == Value(head);
      assert s == head + [last];
    }
  }

  lemma {:induction false} DecimalLength(n: nat, k: nat)
    requires k > 0
    ensures |Decimal(n)| <= k <==> n < Pow10(k)
  {
    if n < 10 {
      Pow10Positive(k - 1);
    } else if k > 1 {
      DecimalLength(n / 10, k - 1);
    } else {
      DecimalReads(n / 10);
      assert Pow10(1) == 10 * Pow10(0);
    }
  }

  lemma {:induction false} Pow10Positive(k: nat)
    ensures Pow10(k) > 0
  {
    if k > 0 {
      Pow10Positive(k - 1);
    }
  }

  lemma DecimalIntInjective(i: int, j: int)
    ensures DecimalInt(i) == DecimalInt(j) <==> i == j
  {
    DecimalReads(if i < 0 then -i else i);
    DecimalReads(if j < 0 then -j else j);
    if i < 0 && j < 0 {
      assert DecimalInt(i)[1..] == Decimal(-i) && DecimalInt(j)[1..] == Decimal(-j);
    }
  }

  /** A printed integer holds digits and at most a sign, so none of the
      separators the encoders rely on. */
  lemma DecimalIntFree(i: int, c: char)
    requires !IsDigit(c) && c != '-'
    ensures Free(DecimalInt(i), c)
  {
    DecimalReads(if i < 0 then -i else i);
  }

  /** Index of the first `c`, or the length when there is none. */
  function Find(s: string, c: char): (i: nat)
    ensures i <= |s| && Free(s[..i], c)
    ensures i < |s| ==> s[i] == c
  {
    if s == "" || s[0] == c then 0
    else
      var i := Find(s[1..], c) + 1;
      assert s[..i] == [s[0]] + s[1..][..i - 1];
      i
  }

  /** `s.split(c, max)`. */
  function Split(s: string, c: char, max: nat): (parts: seq<string>)
    ensures 1 <= |parts| <= max + 1
    decreases max
  {
    var i := Find(s, c);
    if max == 0 || i == |s| then [s]
    else [s[..i]] + Split(s[i + 1..], c, max - 1)
  }

  /** Cutting at the first separator is unambiguous. */
  lemma FirstCut(a: string, b: string, a': string, b': string, c: char)
    requires Free(a, c) && Free(a', c)
    requires a + [c] + b == a' + [c] + b'
    ensures a == a' && b == b'
  {
    var s, s' := a + [c] + b, a' + [c] + b';
    assert s[|a|] == c && s'[|a'|] == c;
    assert forall k :: 0 <= k < |a| ==> s[k] == a[k];
    assert forall k :: 0 <= k < |a'| ==> s'[k] == a'[k];
    assert a == s[..|a|] && a' == s'[..|a'|];
    assert b == s[|a| + 1..] && b' == s'[|a'| + 1..];
  }

  /** Cutting at the last separator is unambiguous. */
  lemma LastCut(a: string, b: string, a': string, b': string, c: char)
    requires Free(b, c) && Free(b', c)
    requires a + [c] + b == a' + [c] + b'
    ensures a == a' && b == b'
  {
    var s, s' := a + [c] + b, a' + [c] + b';
    assert s[|a|] == c && s'[|a'|] == c;
    assert forall k :: |a| < k < |s| ==> s[k] == b[k - |a| - 1];
    assert forall k :: |a'| < k < |s'| ==> s'[k] == b'[k - |a'| - 1];
    assert a == s[..|a|] && a' == s'[..|a'|];
    assert b == s[|a| + 1..] && b' == s'[|a'| + 1..];
  }

  lemma SplitCons(a: string, b: string, c: char, max: nat)
    requires Free(a, c) && max > 0
    ensures Split(a + [c] + b, c, max) == [a] + Split(b, c, max - 1)
  {
    var s := a + [c] + b;
    var i := Find(s, c);
    assert s[|a|] == c;
    assert forall k :: 0 <= k < |a| ==> s[k] == a[k];
    assert forall k :: 0 <= k < i ==> s[k] == s[..i][k];
    assert s[..i] == a && s[i + 1..] == b;
  }

  lemma SplitFree(a: string, c: char, max: nat)
    requires Free(a, c)
    ensures Split(a, c, max) == [a]
  {
  }

  /** Gluing the parts back gives the text that was split. */
  function Join(parts: seq<string>, c: char): string
    requires |parts| > 0
  {
    if |parts| == 1 then parts[0] else parts[0] + [c] + Join(parts[1..], c)
  }

  lemma {:induction false} JoinSplit(s: string, c: char, max: nat)
    ensures Join(Split(s, c, max), c) == s
    decreases max
  {
    hide Find;
    var i := Find(s, c);
    if max > 0 && i < |s| {
      var rest := s[i + 1..];
      JoinSplit(rest, c, max - 1);
      JoinCons(s[..i], Split(rest, c, max - 1), c);
      Cut(s, c, i);
    }
  }

  lemma JoinCons(head: string, parts: seq<string>, c: char)
    requires |parts| > 0
    ensures Join([head] + parts, c) == head + [c] + Join(parts, c)
  {
    assert ([head] + parts)[1..] == parts;
  }

  lemma DropHead(head: string, a: string, b: string)
    requires head + a == head + b
    ensures a == b
  {
    assert (head + a)[|head|..] == a && (head + b)[|head|..] == b;
  }

  lemma Cut(s: string, c: char, i: nat)
    requires i < |s| && s[i] == c
    ensures s == s[..i] + [c] + s[i + 1..]
  {
  }

  predicate HasPrefix(s: string, p: string) {
    |p| <= |s| && s[..|p|] == p
  }

  /** The characters `str.strip()` removes. */
  predicate IsSpace(c: char) {
    || '\U{9}' <= c <= '\U{d}'
    || '\U{1c}' <= c <= ' '
    || c == '\U{85}' || c == '\U{a0}' || c == '\U{1680}'
    || '\U{2000}' <= c <= '\U{200a}'
    || c == '\U{2028}' || c == '\U{2029}' || c == '\U{202f}' || c == '\U{205f}' || c == '\U{3000}'
  }

  function Strip(s: string): string {
    if s == "" then s
    else if IsSpace(s[0]) then Strip(s[1..])
    else if IsSpace(s[|s| - 1]) then Strip(s[..|s| - 1])
    else s
  }

  function LowerChar(c: char): char {
    if 'A' <= c <= 'Z' then (c as int + 32) as char else c
  }

  function Lower(s: string): string {
    seq(|s|, i requires 0 <= i < |s| => LowerChar(s[i]))
  }

  function UpperChar(c: char): char {
    if 'a' <= c <= 'z' then (c as int - 32) as char else c
  }

  function Upper(s: string): string {
    seq(|s|, i requires 0 <= i < |s| => UpperChar(s[i]))
  }

  lemma {:induction false} StripFree(s: string, c: char)
    requires Free(s, c)
    ensures Free(Strip(s), c)
    decreases |s|
  {
    if s != "" {
      if IsSpace(s[0]) {
        StripFree(s[1..], c);
      } else if IsSpace(s[|s| - 1]) {
        StripFree(s[..|s| - 1], c);
      }
    }
  }

  // ------------------------------------------- what these say, by tables of characters

  const UPPER_LETTERS: string := "ABCDEFGHIJKLMNOPQRSTUVWXYZ"
  const LOWER_LETTERS: string := "abcdefghijklmnopqrstuvwxyz"
  const DIGITS: string := "0123456789"

  /** The code points of white space, up to the ideographic space. */
  const SPACES: seq<int> := [
    9, 10, 11, 12, 13, 28, 29, 30, 31, 32, 133, 160, 5760,
    8192, 8193, 8194, 8195, 8196, 8197, 8198, 8199, 8200, 8201, 8202,
    8232, 8233, 8239, 8287, 12288]

  predicate White(c: char) {
    c as int in SPACES
  }

  lemma SpaceMeans(c: char)
    ensures IsSpace(c) <==> White(c)
  {
  }

  /** The same letter in the two tables. */
  ghost predicate CaseOf(upper: char, lower: char) {
    exists k :: 0 <= k < 26 && UPPER_LETTERS[k] == upper && LOWER_LETTERS[k] == lower
  }

  lemma LetterTables(k: nat)
    requires k < 26
    ensures |UPPER_LETTERS| == |LOWER_LETTERS| == 26
    ensures UPPER_LETTERS[k] as int == 'A' as int + k && LOWER_LETTERS[k] as int == 'a' as int + k
  {
  }

  /** `d` is `c` with an upper-case letter replaced by its lower-case one. */
  ghost predicate LowersTo(c: char, d: char) {
    CaseOf(c, d) || (c !in UPPER_LETTERS && d == c)
  }

  ghost predicate UppersTo(c: char, d: char) {
    CaseOf(d, c) || (c !in LOWER_LETTERS && d == c)
  }

  lemma CaseMeans(upper: char, lower: char)
    ensures CaseOf(upper, lower) <==> 'A' <= upper <= 'Z' && lower as int == upper as int + 32
    ensures upper in UPPER_LETTERS <==> 'A' <= upper <= 'Z'
    ensures lower in LOWER_LETTERS <==> 'a' <= lower <= 'z'
  {
    LetterTables(0);
    forall k: nat | k < 26
      ensures UPPER_LETTERS[k] as int == 'A' as int + k && LOWER_LETTERS[k] as int == 'a' as int + k
    {
      LetterTables(k);
    }
    if 'A' <= upper <= 'Z' {
      var k := upper as int - 'A' as int;
      assert UPPER_LETTERS[k] == upper;
      if lower as int == upper as int + 32 {
        assert LOWER_LETTERS[k] == lower;
      }
    }
    if 'a' <= lower <= 'z' {
      assert LOWER_LETTERS[lower as int - 'a' as int] == lower;
    }
  }

  /** `t` is `s` in lower case, letter for letter. */
  ghost predicate IsLowered(s: string, t: string) {
    |t| == |s| && forall i :: 0 <= i < |s| ==> LowersTo(s[i], t[i])
  }

  ghost predicate IsUppered(s: string, t: string) {
    |t| == |s| && forall i :: 0 <= i < |s| ==> UppersTo(s[i], t[i])
  }

  lemma LowersToMeans(c: char, d: char)
    ensures LowersTo(c, d) <==> d == LowerChar(c)
    ensures UppersTo(c, d) <==> d == UpperChar(c)
  {
    CaseMeans(c, d);
    CaseMeans(d, c);
    hide CaseOf;
  }

  lemma LowerMeans(s: string, t: string)
    ensures IsLowered(s, t) <==> t == Lower(s)
    ensures IsUppered(s, t) <==> t == Upper(s)
  {
    hide LowersTo, UppersTo, LowerChar, UpperChar;
    forall i | 0 <= i < |s| && |t| == |s|
      ensures LowersTo(s[i], t[i]) <==> t[i] == LowerChar(s[i])
      ensures UppersTo(s[i], t[i]) <==> t[i] == UpperChar(s[i])
    {
      LowersToMeans(s[i], t[i]);
    }
    if |t| == |s| && IsLowered(s, t) {
      assert forall i :: 0 <= i < |s| ==> t[i] == Lower(s)[i];
    }
    if |t| == |s| && IsUppered(s, t) {
      assert forall i :: 0 <= i < |s| ==> t[i] == Upper(s)[i];
    }
  }

  predicate AllWhite(s: string) {
    forall i :: 0 <= i < |s| ==> White(s[i])
  }

  /** `t` is what remains of `s` without its white margins `a` and `b`. */
  predicate TrimsBetween(s: string, a: string, t: string, b: string) {
    && s == a + t + b && AllWhite(a) && AllWhite(b)
    && (t != "" ==> !White(t[0]) && !White(t[|t| - 1]))
  }

  /** `t` is `s` with the white space at both ends taken off. */
  ghost predicate IsTrimmed(s: string, t: string) {
    exists a, b :: TrimsBetween(s, a, t, b)
  }

  lemma {:induction false} StripTrims(s: string) returns (a: string, b: string)
    ensures TrimsBetween(s, a, Strip(s), b)
    decreases |s|
  {
    hide White, TrimsBetween;
    if s == "" {
      a, b := "", "";
      NothingToTrim(s);
    } else {
      SpaceMeans(s[0]);
      SpaceMeans(s[|s| - 1]);
      if IsSpace(s[0]) {
        a, b := StripTrims(s[1..]);
        TrimMore(s, a, Strip(s), b);
        a := [s[0]] + a;
      } else if IsSpace(s[|s| - 1]) {
        a, b := StripTrims(s[..|s| - 1]);
        TrimMore(s, a, Strip(s), b);
        b := b + [s[|s| - 1]];
      } else {
        a, b := "", "";
        NothingToTrim(s);
      }
    }
  }

  lemma NothingToTrim(s: string)
    requires s == "" || (!White(s[0]) && !White(s[|s| - 1]))
    ensures TrimsBetween(s, "", s, "")
  {
    hide White;
  }

  lemma TrimMore(s: string, a: string, t: string, b: string)
    requires s != ""
    ensures White(s[0]) && TrimsBetween(s[1..], a, t, b) ==> TrimsBetween(s, [s[0]] + a, t, b)
    ensures White(s[|s| - 1]) && TrimsBetween(s[..|s| - 1], a, t, b) ==> TrimsBetween(s, a, t, b + [s[|s| - 1]])
  {
    hide White;
    assert s == [s[0]] + s[1..] && s == s[..|s| - 1] + [s[|s| - 1]];
  }

  /** There is one way to take the white margins off. */
  lemma TrimIsUnique(s: string, a: string, t: string, b: string, a': string, t': string, b': string)
    requires TrimsBetween(s, a, t, b) && TrimsBetween(s, a', t', b')
    ensures t == t'
  {
    hide White;
    EmptyWhenWhite(s, a, t, b);
    EmptyWhenWhite(s, a', t', b');
    if t != "" && t' != "" {
      assert s[|a|] == t[0] && s[|a'|] == t'[0];
      assert forall i :: 0 <= i < |a| ==> s[i] == a[i];
      assert forall i :: 0 <= i < |a'| ==> s[i] == a'[i];
      assert |a| == |a'|;
      var n, n' := |a| + |t|, |a'| + |t'|;
      assert s[n - 1] == t[|t| - 1] && s[n' - 1] == t'[|t'| - 1];
      assert forall i :: n <= i < |s| ==> s[i] == b[i - n];
      assert forall i :: n' <= i < |s| ==> s[i] == b'[i - n'];
      assert n == n';
      assert t == s[|a|..n] && t' == s[|a|..n];
    }
  }

  lemma EmptyWhenWhite(s: string, a: string, t: string, b: string)
    requires TrimsBetween(s, a, t, b)
    ensures t == "" <==> AllWhite(s)
  {
    hide White;
    if t != "" {
      assert s[|a|] == t[0];
    } else {
      assert s == a + b;
    }
  }

  lemma StripMeans(s: string, t: string)
    ensures IsTrimmed(s, t) <==> t == Strip(s)
  {
    hide TrimsBetween;
    var a, b := StripTrims(s);
    forall a', b' | TrimsBetween(s, a', t, b') ensures t == Strip(s) {
      TrimIsUnique(s, a, Strip(s), b, a', t, b');
    }
  }

  /** The digit of `n` with `k` more behind it. */
  function DigitAt(n: nat, k: nat): nat {
    if k == 0 then n % 10 else DigitAt(n / 10, k - 1)
  }

  lemma {:induction false} NumeralMeans(n: nat, k: nat)
    requires k < |Decimal(n)|
    ensures DigitAt(n, k) < 10 && Decimal(n)[|Decimal(n)| - 1 - k] == DIGITS[DigitAt(n, k)]
  {
    if k > 0 {
      NumeralMeans(n / 10, k - 1);
    } else {
      DigitMeans(n % 10);
    }
  }

  lemma DigitMeans(d: nat)
    requires d < 10
    ensures Digit(d) == DIGITS[d]
  {
  }

  lemma DigitTable(c: char)
    ensures c in DIGITS <==> '0' <= c <= '9'
  {
    if '0' <= c <= '9' {
      DigitMeans(c as int - '0' as int);
    }
  }
}
