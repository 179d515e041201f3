/**
 * The password generator of `Scripts/passwordGenerator.js`: a pool of character classes, one
 * forced character from each optional class, the rest from the pool, then a Fisher-Yates
 * shuffle; and the strength rater that scores length and the classes present.
 * The random numbers come from `crypto.getRandomValues` and are passed in as 32-bit values.
 */
module PasswordGenerator {
  import opened Wrappers

  const Lowercase := "abcdefghijklmnopqrstuvwxyz"
  const Uppercase := "ABCDEFGHIJKLMNOPQRSTUVWXYZ"
  const Digits := "0123456789"
  const Specials := "!\"#$%&'()*+,-./:;<=>?@[\\]^_`{|}~"

  const TooShort := "Lösenordet måste vara minst 4 tecken långt."

  /** One `Uint32Array` element. */
  const TwoTo32 := 0x1_0000_0000

  predicate IsUpper(c: char) { 'A' <= c <= 'Z' }
  predicate IsLower(c: char) { 'a' <= c <= 'z' }
  predicate IsDigit(c: char) { '0' <= c <= '9' }
  /** The class `[!"#$%&'()*+,-./:;<=>?@[\\\]^_`{|}~]`: the four runs of ASCII punctuation. */
  predicate IsSpecial(c: char) { '!' <= c <= '/' || ':' <= c <= '@' || '[' <= c <= '`' || '{' <= c <= '~' }

  /** The characters the generator may use: lowercase always, the other classes when selected. */
  function Pool(upper: bool, numbers: bool, special: bool): string {
    Lowercase + (if upper then Uppercase else "") + (if numbers then Digits else "") + (if special then Specials else "")
  }

  /** `char_types`: the selected optional classes, each of which must appear. */
  function CharTypes(upper: bool, numbers: bool, special: bool): seq<string> {
    (if upper then [Uppercase] else []) + (if numbers then [Digits] else []) + (if special then [Specials] else [])
  }

  lemma CharTypesInPool(upper: bool, numbers: bool, special: bool)
    ensures forall t, c :: t in CharTypes(upper, numbers, special) && c in t ==> c in Pool(upper, numbers, special)
  {
  }

  /** `secureChoice`: the character at the random value modulo the length. */
  function Choose(str: string, r: nat): (c: char)
    requires |str| > 0
    ensures c in str
  {
    str[r % |str|]
  }

  predicate AllUint32(rs: seq<nat>) {
    forall k :: 0 <= k < |rs| ==> rs[k] < TwoTo32
  }

  /** The number of characters generated: one per class, then up to `length`; `None` is `NaN`. */
  function PasswordLength(length: Option<int>, classes: nat): nat {
    if length.Some? && length.value > classes then length.value else classes
  }

  /** The characters before the shuffle: the forced ones in class order, then the pool fill. */
  function Unshuffled(types: seq<string>, pool: string, n: nat, choices: seq<nat>): (r: seq<char>)
    requires |types| <= n <= |choices| && |pool| > 0
    requires forall k :: 0 <= k < |types| ==> |types[k]| > 0
    ensures |r| == n
  {
    seq(n, k requires 0 <= k < n => if k < |types| then Choose(types[k], choices[k]) else Choose(pool, choices[k]))
  }

  /**
   * The swap partner `Math.floor(r / 2^32 * (i + 1))`. The quotient `r / 2^32` is exact in a
   * double, and so is its product with `i + 1` while `i + 1 <= 2^21`; longer passwords could
   * round differently.
   */
  function SwapIndex(r: nat, i: nat): (j: nat)
    requires r < TwoTo32
    ensures j <= i
  {
    (r * (i + 1)) / TwoTo32
  }

  function Swap(s: seq<char>, i: nat, j: nat): (r: seq<char>)
    requires i < |s| && j < |s|
    ensures |r| == |s|
  {
    s[i := s[j]][j := s[i]]
  }

  /**
   * The shuffle from position `i` down to 1: position `i` swaps with `SwapIndex` of the random
   * value `swaps[|s| - 1 - i]`.
   */
  function Shuffle(s: seq<char>, swaps: seq<nat>, i: nat): (r: seq<char>)
    requires i < |s| && |s| - 1 <= |swaps| && AllUint32(swaps)
    ensures |r| == |s|
    decreases i
  {
    if i == 0 then s else Shuffle(Swap(s, i, SwapIndex(swaps[|s| - 1 - i], i)), swaps, i - 1)
  }

  lemma {:induction false} ShuffleIsPermutation(s: seq<char>, swaps: seq<nat>, i: nat)
    requires i < |s| && |s| - 1 <= |swaps| && AllUint32(swaps)
    ensures multiset(Shuffle(s, swaps, i)) == multiset(s)
    decreases i
  {
    if i > 0 {
      var j := SwapIndex(swaps[|s| - 1 - i], i);
      SwapIsPermutation(s, i, j);
      ShuffleIsPermutation(Swap(s, i, j), swaps, i - 1);
    }
  }

  lemma SwapIsPermutation(s: seq<char>, i: nat, j: nat)
    requires i < |s| && j < |s|
    ensures multiset(Swap(s, i, j)) == multiset(s)
  {
    var t := s[i := s[j]];
    assert multiset(t) == multiset(s) - multiset{s[i]} + multiset{s[j]};
  }

  /** What `generate_password` returns, or the error it throws. */
  function Generated(length: Option<int>, upper: bool, numbers: bool, special: bool,
                     choices: seq<nat>, swaps: seq<nat>): Result<string, string>
    requires AllUint32(swaps)
    requires |choices| >= PasswordLength(length, |CharTypes(upper, numbers, special)|)
    requires |swaps| >= PasswordLength(length, |CharTypes(upper, numbers, special)|)
  {
    if length.Some? && length.value < 4 then Err(TooShort)
    else
      var types := CharTypes(upper, numbers, special);
      var n := PasswordLength(length, |types|);
      Ok(ShuffleAll(Unshuffled(types, Pool(upper, numbers, special), n, choices), swaps))
  }

  predicate NonEmptyClasses(types: seq<string>) {
    forall k :: 0 <= k < |types| ==> |types[k]| > 0
  }

  lemma CharTypesNonEmpty(upper: bool, numbers: bool, special: bool)
    ensures NonEmptyClasses(CharTypes(upper, numbers, special)) && |Pool(upper, numbers, special)| > 0
  {
  }

  /**
   * The two push loops of `generate_password`: one `secureChoice` per class, then pool
   * characters while fewer than `length`. `choices` holds the values drawn, in order.
   */
  method DrawCharacters(types: seq<string>, pool: string, length: Option<int>, choices: seq<nat>)
    returns (passwordChars: seq<char>)
    requires NonEmptyClasses(types) && |pool| > 0
    requires |choices| >= PasswordLength(length, |types|)
    ensures passwordChars == Unshuffled(types, pool, PasswordLength(length, |types|), choices)
  {
    var n := PasswordLength(length, |types|);
    ghost var target := Unshuffled(types, pool, n, choices);
    passwordChars := [];
    for t := 0 to |types|
      invariant passwordChars == target[..t]
    {
      passwordChars := passwordChars + [Choose(types[t], choices[t])];
    }
    var i := |passwordChars|;
    while length.Some? && i < length.value
      invariant |types| <= i <= n && passwordChars == target[..i]
      invariant length.None? ==> i == |types|
    {
      passwordChars := passwordChars + [Choose(pool, choices[i])];
      i := i + 1;
    }
  }

  /** The in-place Fisher-Yates loop of `generate_password`, from the last position down to 1. */
  method ShuffleInPlace(a: array<char>, swaps: seq<nat>)
    requires a.Length >= 1 && a.Length - 1 <= |swaps| && AllUint32(swaps)
    modifies a
    ensures a[..] == Shuffle(old(a[..]), swaps, a.Length - 1)
  {
    var n := a.Length;
    var i := n - 1;
    while i > 0
      invariant 0 <= i < n
      invariant Shuffle(a[..], swaps, i) == Shuffle(old(a[..]), swaps, n - 1)
    {
      var j := SwapIndex(swaps[n - 1 - i], i);
      assert a[..][i := a[j]][j := a[i]] == Swap(a[..], i, j);
      a[i], a[j] := a[j], a[i];
      i := i - 1;
    }
  }

  /** The draw and the shuffle, for given classes and pool; the result is `join("")`. */
  method DrawAndShuffleChars(types: seq<string>, pool: string, length: Option<int>, choices: seq<nat>, swaps: seq<nat>)
    returns (password: string)
    requires NonEmptyClasses(types) && |pool| > 0 && AllUint32(swaps)
    requires |choices| >= PasswordLength(length, |types|) && |swaps| >= PasswordLength(length, |types|)
    ensures password == ShuffleAll(Unshuffled(types, pool, PasswordLength(length, |types|), choices), swaps)
  {
    var passwordChars := DrawCharacters(types, pool, length, choices);
    var n := |passwordChars|;
    if n == 0 {
      return passwordChars;
    }
    var a := new char[n](k requires 0 <= k < n => passwordChars[k]);
    assert a[..] == passwordChars;
    ShuffleInPlace(a, swaps);
    password := a[..];
  }

  /** The pool and class list `generate_password` builds from the options. */
  method BuildPool(upper: bool, numbers: bool, special: bool) returns (pool: string, charTypes: seq<string>)
    ensures pool == Pool(upper, numbers, special) && charTypes == CharTypes(upper, numbers, special)
    ensures NonEmptyClasses(charTypes) && |pool| > 0
  {
    pool := Lowercase;
    charTypes := [];
    if upper {
      pool := pool + Uppercase;
      charTypes := charTypes + [Uppercase];
    }
    if numbers {
      pool := pool + Digits;
      charTypes := charTypes + [Digits];
    }
    if special {
      pool := pool + Specials;
      charTypes := charTypes + [Specials];
    }
    CharTypesNonEmpty(upper, numbers, special);
  }

  /**
   * `generate_password(length, use_uppercase, use_numbers, use_special_chars)`. `choices`
   * holds the values `secureChoice` draws, in order; `swaps[k]` the one drawn for the swap at
   * position `n - 1 - k`. `length` is `None` when the field held no number: `NaN < 4` is false,
   * so no error, and the fill loop does not run.
   */
  method GeneratePassword(length: Option<int>, upper: bool, numbers: bool, special: bool,
                          choices: seq<nat>, swaps: seq<nat>) returns (r: Result<string, string>)
    requires AllUint32(swaps)
    requires |choices| >= PasswordLength(length, |CharTypes(upper, numbers, special)|)
    requires |swaps| >= PasswordLength(length, |CharTypes(upper, numbers, special)|)
    ensures r == Generated(length, upper, numbers, special, choices, swaps)
  {
    if length.Some? && length.value < 4 {
      return Err(TooShort);
    }
    var pool, charTypes := BuildPool(upper, numbers, special);
    var password := DrawAndShuffleChars(charTypes, pool, length, choices, swaps);
    r := Ok(password);
  }

  /** The shuffled characters: the whole Fisher-Yates pass, nothing to do for an empty list. */
  function ShuffleAll(chars: seq<char>, swaps: seq<nat>): (r: seq<char>)
    requires |chars| <= |swaps| && AllUint32(swaps)
    ensures |r| == |chars|
  {
    if chars == [] then chars else Shuffle(chars, swaps, |chars| - 1)
  }

  /**
   * Drawing and shuffling, for any classes contained in the pool: every character comes from
   * the pool, every class is represented, and the shuffle only reorders.
   */
  lemma DrawAndShuffle(types: seq<string>, pool: string, n: nat, choices: seq<nat>, swaps: seq<nat>)
    requires NonEmptyClasses(types) && |pool| > 0 && |types| <= n <= |choices| && n <= |swaps| && AllUint32(swaps)
    requires forall m, c :: 0 <= m < |types| && c in types[m] ==> c in pool
    ensures var pw := ShuffleAll(Unshuffled(types, pool, n, choices), swaps);
      && multiset(pw) == multiset(Unshuffled(types, pool, n, choices))
      && (forall k :: 0 <= k < |pw| ==> pw[k] in pool)
      && (forall m :: 0 <= m < |types| ==> exists k :: 0 <= k < |pw| && pw[k] in types[m])
  {
    var chars := Unshuffled(types, pool, n, choices);
    var pw := ShuffleAll(chars, swaps);
    if n > 0 {
      ShuffleIsPermutation(chars, swaps, n - 1);
    }
    UnshuffledDraws(types, pool, n, choices);
    forall k | 0 <= k < |pw| ensures pw[k] in pool {
      var m := FoundIn(pw, chars, k);
    }
    forall m | 0 <= m < |types| ensures exists k :: 0 <= k < |pw| && pw[k] in types[m] {
      var k := FoundIn(chars, pw, m);
    }
  }

  /** Before the shuffle, every character is from the pool and the first ones are one per class. */
  lemma UnshuffledDraws(types: seq<string>, pool: string, n: nat, choices: seq<nat>)
    requires NonEmptyClasses(types) && |pool| > 0 && |types| <= n <= |choices|
    requires forall m, c :: 0 <= m < |types| && c in types[m] ==> c in pool
    ensures forall k :: 0 <= k < n ==> Unshuffled(types, pool, n, choices)[k] in pool
    ensures forall m :: 0 <= m < |types| ==> Unshuffled(types, pool, n, choices)[m] in types[m]
  {
  }

  /** A character of one arrangement sits somewhere in any permutation of it. */
  lemma FoundIn(a: seq<char>, b: seq<char>, k: nat) returns (m: nat)
    requires multiset(a) == multiset(b) && k < |a|
    ensures m < |b| && b[m] == a[k]
  {
    assert a[k] in multiset(b);
    m :| 0 <= m < |b| && b[m] == a[k];
  }

  /**
   * A generated password has the requested length (at least 4), uses only pool characters,
   * holds one character of every selected class, and is a permutation of the drawn characters.
   */
  lemma GeneratedPasswordProperties(length: Option<int>, upper: bool, numbers: bool, special: bool,
                                    choices: seq<nat>, swaps: seq<nat>)
    requires AllUint32(swaps)
    requires |choices| >= PasswordLength(length, |CharTypes(upper, numbers, special)|)
    requires |swaps| >= PasswordLength(length, |CharTypes(upper, numbers, special)|)
    ensures var r := Generated(length, upper, numbers, special, choices, swaps);
      && (r.Err? <==> length.Some? && length.value < 4)
      && (r.Ok? ==>
           var types := CharTypes(upper, numbers, special);
           var n := PasswordLength(length, |types|);
           && |r.value| == n
           && (length.Some? ==> |r.value| == length.value)
           && (forall k :: 0 <= k < |r.value| ==> r.value[k] in Pool(upper, numbers, special))
           && (forall m :: 0 <= m < |types| ==> exists k :: 0 <= k < |r.value| && r.value[k] in types[m])
           && multiset(r.value) == multiset(Unshuffled(types, Pool(upper, numbers, special), n, choices)))
  {
    if !(length.Some? && length.value < 4) {
      var types := CharTypes(upper, numbers, special);
      var pool := Pool(upper, numbers, special);
      var n := PasswordLength(length, |types|);
      CharTypesNonEmpty(upper, numbers, special);
      CharTypesInPool(upper, numbers, special);
      assert |types| <= 3;
      DrawAndShuffle(types, pool, n, choices, swaps);
    }
  }

  predicate HasUpper(pw: string) { exists k :: 0 <= k < |pw| && IsUpper(pw[k]) }
  predicate HasLower(pw: string) { exists k :: 0 <= k < |pw| && IsLower(pw[k]) }
  predicate HasDigit(pw: string) { exists k :: 0 <= k < |pw| && IsDigit(pw[k]) }
  predicate HasSpecial(pw: string) { exists k :: 0 <= k < |pw| && IsSpecial(pw[k]) }

  function LengthBonus(n: nat): (b: nat)
    ensures b <= 3
  {
    if n >= 16 then 3 else if n >= 12 then 2 else if n >= 8 then 1 else 0
  }

  function ClassPoints(present: bool): nat {
    if present then 2 else 0
  }

  /** The score of `rate_password_strength`: a length bonus and two points per class present. */
  function Score(pw: string): (s: nat)
    ensures s <= 11
  {
    LengthBonus(|pw|) + ClassPoints(HasUpper(pw)) + ClassPoints(HasLower(pw))
      + ClassPoints(HasDigit(pw)) + ClassPoints(HasSpecial(pw))
  }

  /** `rate_password_strength`. */
  function Rate(pw: string): (r: string)
    ensures r in {"Väldigt starkt", "Starkt", "Medel", "Svagt"}
  {
    var score := Score(pw);
    if score >= 11 then "Väldigt starkt"
    else if score >= 10 then "Starkt"
    else if score >= 7 then "Medel"
    else "Svagt"
  }

  predicate AllClasses(pw: string) {
    HasUpper(pw) && HasLower(pw) && HasDigit(pw) && HasSpecial(pw)
  }

  /** The two top labels need every class; they differ only in length. */
  lemma RateTopLabels(pw: string)
    ensures Rate(pw) == "Väldigt starkt" <==> |pw| >= 16 && AllClasses(pw)
    ensures Rate(pw) == "Starkt" <==> 12 <= |pw| < 16 && AllClasses(pw)
  {
  }

  /** Appending characters never lowers the score. */
  lemma ScoreMonotone(pw: string, more: string)
    ensures Score(pw) <= Score(pw + more)
  {
    var longer := pw + more;
    if HasUpper(pw) { var k :| 0 <= k < |pw| && IsUpper(pw[k]); assert longer[k] == pw[k]; }
    if HasLower(pw) { var k :| 0 <= k < |pw| && IsLower(pw[k]); assert longer[k] == pw[k]; }
    if HasDigit(pw) { var k :| 0 <= k < |pw| && IsDigit(pw[k]); assert longer[k] == pw[k]; }
    if HasSpecial(pw) { var k :| 0 <= k < |pw| && IsSpecial(pw[k]); assert longer[k] == pw[k]; }
  }

  lemma UppercaseChars(c: char)
    requires c in Uppercase
    ensures IsUpper(c)
  {
  }

  lemma DigitChars(c: char)
    requires c in Digits
    ensures IsDigit(c)
  {
  }

  lemma SpecialChars(c: char)
    requires c in Specials
    ensures IsSpecial(c)
  {
  }

  /** A password of at least 16 characters holding an uppercase letter, a digit and a special scores at least 9. */
  lemma ThreeClassesScore(pw: string, types: seq<string>)
    requires types == [Uppercase, Digits, Specials] && |pw| >= 16
    requires forall m :: 0 <= m < |types| ==> exists k :: 0 <= k < |pw| && pw[k] in types[m]
    ensures Score(pw) >= 9
  {
    var u :| 0 <= u < |pw| && pw[u] in types[0];
    var d :| 0 <= d < |pw| && pw[d] in types[1];
    var s :| 0 <= s < |pw| && pw[s] in types[2];
    UppercaseChars(pw[u]);
    DigitChars(pw[d]);
    SpecialChars(pw[s]);
  }

  /**
   * A password generated with every class selected and length at least 16 rates at least
   * "Medel": uppercase, digits and specials are forced, lowercase is not.
   */
  lemma FullOptionsRateAtLeastMedium(length: int, choices: seq<nat>, swaps: seq<nat>)
    requires length >= 16 && AllUint32(swaps)
    requires |choices| >= length && |swaps| >= length
    ensures Generated(Some(length), true, true, true, choices, swaps).Ok?
    ensures Score(Generated(Some(length), true, true, true, choices, swaps).value) >= 9
    ensures Rate(Generated(Some(length), true, true, true, choices, swaps).value) != "Svagt"
  {
    GeneratedPasswordProperties(Some(length), true, true, true, choices, swaps);
    ThreeClassesScore(Generated(Some(length), true, true, true, choices, swaps).value, CharTypes(true, true, true));
  }
}
