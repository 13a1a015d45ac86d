/** The passphrase policy: src/core/passphrase.py. */
module Passphrase {
  import opened Text

  const MIN_LENGTH := 12
  const MIN_CHARACTER_CLASSES := 3
  const MAX_REPEATED_RUN := 4

  const FORBIDDEN: seq<string> :=
    ["password", "passphrase", "minivault", "qwerty", "123456", "abcdef", "letmein", "admin"]

  datatype Issue = TooShort | SurroundingWhitespace | TooFewCharacterClasses | RepeatedCharacters | CommonPattern

  predicate HasClass(s: string, member: char -> bool) {
    exists i :: 0 <= i < |s| && member(s[i])
  }

  function Counted(b: bool): nat {
    if b then 1 else 0
  }

  function Classes(s: string): nat {
    var lower, upper, digit := (c: char) => 'a' <= c <= 'z', (c: char) => 'A' <= c <= 'Z', (c: char) => '0' <= c <= '9';
    Counted(HasClass(s, lower)) + Counted(HasClass(s, upper)) + Counted(HasClass(s, digit))
    + Counted(HasClass(s, c => !lower(c) && !upper(c) && !digit(c)))
  }

  /** Four times the same character in a row. */
  predicate LongRun(s: string) {
    exists i :: 3 <= i < |s| && SameBefore(s, i)
  }

  predicate SameBefore(s: string, i: nat)
    requires 3 <= i < |s|
  {
    s[i - 3] == s[i - 2] == s[i - 1] == s[i]
  }

  predicate Contains(s: string, part: string) {
    exists i :: 0 <= i <= |s| && HasPrefix(s[i..], part)
  }

  /** `evaluate`: the first violation. */
  function Evaluate(s: string): Option<Issue> {
    if |s| < MIN_LENGTH then Some(TooShort)
    else if Strip(s) != s || Strip(s) == "" then Some(SurroundingWhitespace)
    else if Classes(s) < MIN_CHARACTER_CLASSES then Some(TooFewCharacterClasses)
    else if LongRun(s) then Some(RepeatedCharacters)
    else if exists k :: 0 <= k < |FORBIDDEN| && Contains(Lower(s), FORBIDDEN[k]) then Some(CommonPattern)
    else None
  }

  predicate Strong(s: string) {
    Evaluate(s).None?
  }

  /** `_has_long_run`: the loop finds a run exactly when there are four equal neighbours. */
  method HasLongRun(s: string) returns (found: bool)
    ensures found <==> LongRun(s)
  {
    var run, i := 1, 1;
    while i < |s|
      invariant 1 <= i && (s != "" ==> i <= |s|)
      invariant 1 <= run < MAX_REPEATED_RUN && run <= i
      invariant s != "" ==> forall j :: i - run <= j < i ==> s[j] == s[i - 1]
      invariant s != "" && run < i ==> s[i - run - 1] != s[i - 1]
      invariant forall j :: 3 <= j < i && j < |s| ==> !SameBefore(s, j)
    {
      run := if s[i] == s[i - 1] then run + 1 else 1;
      if run >= MAX_REPEATED_RUN {
        assert SameBefore(s, i);
        return true;
      }
      i := i + 1;
    }
    return false;
  }

  lemma {:induction false} StripLeaves(s: string)
    ensures |Strip(s)| <= |s|
    ensures Strip(s) == s <==> s == "" || (!IsSpace(s[0]) && !IsSpace(s[|s| - 1]))
    decreases |s|
  {
    if s != "" {
      StripLeaves(s[1..]);
      StripLeaves(s[..|s| - 1]);
    }
  }

  /** What a passphrase that passes looks like, and that nothing else passes. */
  lemma StrongMeans(s: string)
    ensures Strong(s) <==>
            && |s| >= MIN_LENGTH && !IsSpace(s[0]) && !IsSpace(s[|s| - 1])
            && Classes(s) >= MIN_CHARACTER_CLASSES
            && (forall i :: 3 <= i < |s| ==> !SameBefore(s, i))
            && forall k :: 0 <= k < |FORBIDDEN| ==> !Contains(Lower(s), FORBIDDEN[k])
  {
    hide Classes, Contains, Strip, Lower;
    StripLeaves(s);
  }

  // ----------------------------------------------- the policy, character by character

  ghost predicate Has(s: string, letters: string) {
    exists i :: 0 <= i < |s| && s[i] in letters
  }

  ghost predicate HasSymbol(s: string) {
    exists i :: 0 <= i < |s| && s[i] !in UPPER_LETTERS && s[i] !in LOWER_LETTERS && s[i] !in DIGITS
  }

  /** At least three of the four kinds of character. */
  ghost predicate Mixed(s: string) {
    var lower, upper, digit, symbol := Has(s, LOWER_LETTERS), Has(s, UPPER_LETTERS), Has(s, DIGITS), HasSymbol(s);
    (lower && upper && (digit || symbol)) || ((lower || upper) && digit && symbol)
  }

  /** The word stands at place `i`, in letters of either case. */
  ghost predicate WordAt(s: string, i: nat, word: string) {
    i + |word| <= |s| && forall j :: 0 <= j < |word| ==> LowersTo(s[i + j], word[j])
  }

  ghost predicate Says(s: string, word: string) {
    exists i: nat :: WordAt(s, i, word)
  }

  lemma ClassesMean(s: string)
    ensures Classes(s) >= 3 <==> Mixed(s)
  {
    forall i | 0 <= i < |s|
      ensures s[i] in UPPER_LETTERS <==> 'A' <= s[i] <= 'Z'
      ensures s[i] in LOWER_LETTERS <==> 'a' <= s[i] <= 'z'
      ensures s[i] in DIGITS <==> '0' <= s[i] <= '9'
    {
      CaseMeans(s[i], s[i]);
      DigitTable(s[i]);
    }
    hide UPPER_LETTERS, LOWER_LETTERS, DIGITS;
  }

  lemma WordMeans(s: string, i: nat, word: string)
    requires i <= |s|
    ensures WordAt(s, i, word) <==> HasPrefix(Lower(s)[i..], word)
  {
    hide LowersTo, LowerChar;
    var low := Lower(s);
    forall j | 0 <= j < |word| && i + |word| <= |s|
      ensures LowersTo(s[i + j], word[j]) <==> low[i..][j] == word[j]
    {
      LowersToMeans(s[i + j], word[j]);
    }
    if i + |word| <= |s| {
      assert low[i..][..|word|] == word <==> forall j :: 0 <= j < |word| ==> low[i..][j] == word[j];
    }
  }

  lemma SaysMeans(s: string, word: string)
    ensures Contains(Lower(s), word) <==> Says(s, word)
  {
    hide WordAt, HasPrefix, Lower;
    LowerLength(s);
    forall i: nat | i <= |s| ensures WordAt(s, i, word) <==> HasPrefix(Lower(s)[i..], word) {
      WordMeans(s, i, word);
    }
    forall i: nat | WordAt(s, i, word) ensures i <= |s| {
      WordFits(s, i, word);
    }
  }

  lemma LowerLength(s: string)
    ensures |Lower(s)| == |s|
  {
  }

  lemma WordFits(s: string, i: nat, word: string)
    requires WordAt(s, i, word)
    ensures i <= |s|
  {
  }

  lemma WordsMean(s: string)
    ensures (forall k :: 0 <= k < |FORBIDDEN| ==> !Contains(Lower(s), FORBIDDEN[k])) <==>
            && !Says(s, "password") && !Says(s, "passphrase") && !Says(s, "minivault") && !Says(s, "qwerty")
            && !Says(s, "123456") && !Says(s, "abcdef") && !Says(s, "letmein") && !Says(s, "admin")
  {
    hide Contains, Says, Lower;
    forall word ensures Contains(Lower(s), word) <==> Says(s, word) {
      SaysMeans(s, word);
    }
    assert |FORBIDDEN| == 8 && FORBIDDEN[0] == "password" && FORBIDDEN[1] == "passphrase"
        && FORBIDDEN[2] == "minivault" && FORBIDDEN[3] == "qwerty" && FORBIDDEN[4] == "123456"
        && FORBIDDEN[5] == "abcdef" && FORBIDDEN[6] == "letmein" && FORBIDDEN[7] == "admin";
  }

  lemma RunsMean(s: string)
    ensures (forall i :: 3 <= i < |s| ==> !SameBefore(s, i))
       <==> forall i :: 3 <= i < |s| ==> !(s[i - 3] == s[i - 2] == s[i - 1] == s[i])
  {
    forall i | 3 <= i < |s| ensures SameBefore(s, i) <==> s[i - 3] == s[i - 2] == s[i - 1] == s[i] {
    }
  }

  /** The policy in full: twelve characters, no white space at either end, three of the four
      kinds, no character four times in a row, and none of eight common words in any case. */
  lemma PolicyMeans(s: string)
    ensures Strong(s) <==>
            && |s| >= 12 && !White(s[0]) && !White(s[|s| - 1]) && Mixed(s)
            && (forall i :: 3 <= i < |s| ==> !(s[i - 3] == s[i - 2] == s[i - 1] == s[i]))
            && !Says(s, "password") && !Says(s, "passphrase") && !Says(s, "minivault") && !Says(s, "qwerty")
            && !Says(s, "123456") && !Says(s, "abcdef") && !Says(s, "letmein") && !Says(s, "admin")
  {
    hide Strong, Classes, Mixed, Contains, Says, Lower, White, SPACES;
    StrongMeans(s);
    ClassesMean(s);
    if |s| >= 12 {
      SpaceMeans(s[0]);
      SpaceMeans(s[|s| - 1]);
    }
    WordsMean(s);
    RunsMean(s);
  }

  lemma TrimmedMeans(s: string)
    ensures (Strip(s) == s && Strip(s) != "") <==> s != "" && !White(s[0]) && !White(s[|s| - 1])
  {
    StripLeaves(s);
    hide Strip, White;
    if s != "" {
      SpaceMeans(s[0]);
      SpaceMeans(s[|s| - 1]);
    }
  }

  /** The first rule broken is the one reported. */
  lemma EvaluateMeans(s: string)
    ensures Evaluate(s) == Some(TooShort) <==> |s| < 12
    ensures Evaluate(s) == Some(SurroundingWhitespace) <==> |s| >= 12 && (White(s[0]) || White(s[|s| - 1]))
    ensures Evaluate(s) == Some(TooFewCharacterClasses)
       <==> |s| >= 12 && !White(s[0]) && !White(s[|s| - 1]) && !Mixed(s)
    ensures Evaluate(s) == Some(RepeatedCharacters)
       <==> |s| >= 12 && !White(s[0]) && !White(s[|s| - 1]) && Mixed(s) && LongRun(s)
    ensures Evaluate(s) == None <==> Strong(s)
  {
    hide Classes, Mixed, Contains, Strip, Lower, White, LongRun;
    TrimmedMeans(s);
    ClassesMean(s);
  }
}
