/**
 * The small demonstration programs of `Scripts/programs.js`: leap years, Fibonacci numbers,
 * FizzBuzz divisor lists, the Swedish list joiner, the beer song, the lunch-payer picker, the
 * guest list, the character counter and dog years.
 */
module Programs {
  import opened Wrappers
  import opened JsText

  /**
   * What `Number(input)` gives, as far as these programs look at it: an integer, a finite
   * number with a fractional part, or a value that is not finite (`NaN`, `Infinity`).
   */
  datatype JsNum = Int(i: int) | Fraction(r: real) | NotFinite

  /** `!Number.isFinite(v) || !Number.isInteger(v) || v < 0`, the guard several programs share. */
  predicate IsNonNegativeInteger(v: JsNum) {
    v.Int? && v.i >= 0
  }

  // ---------------------------------------------------------------- leap years

  /** `isLeap`: `None` (JavaScript `null`) unless a non-negative integer; then the Gregorian rule. */
  function IsLeap(year: JsNum): (r: Option<bool>)
    ensures r.None? <==> !IsNonNegativeInteger(year)
  {
    if !IsNonNegativeInteger(year) then None
    else
      var value := year.i;
      if value % 4 != 0 then Some(false)
      else if value % 100 != 0 then Some(true)
      else if value % 400 != 0 then Some(false)
      else Some(true)
  }

  /** The cascade of `isLeap` is the one-line Gregorian rule. */
  lemma IsLeapRule(y: nat)
    ensures IsLeap(Int(y)) == Some((y % 4 == 0 && y % 100 != 0) || y % 400 == 0)
  {
    if y % 400 == 0 {
      var q := y / 400;
      assert y == 100 * (4 * q);
      assert y % 100 == 0;
    }
    if y % 100 == 0 {
      var q := y / 100;
      assert y == 4 * (25 * q);
      assert y % 4 == 0;
    }
  }

  /** The calendar repeats every 400 years. */
  lemma IsLeapPeriod(y: nat)
    ensures IsLeap(Int(y + 400)) == IsLeap(Int(y))
  {
    assert (y + 400) % 4 == y % 4;
    assert (y + 400) % 100 == y % 100;
    assert (y + 400) % 400 == y % 400;
  }

  /**
   * The text `showResultForYear` shows for the number read from the year field: for a
   * non-negative year, whether the Gregorian rule makes it a leap year.
   */
  function YearMessage(year: JsNum): (r: string)
    ensures year.Int? && year.i < 0 ==> r == "Ogiltigt år."
    ensures !year.Int? ==> r == "Var god ange ett giltigt heltal för året."
    ensures year.Int? && year.i >= 0 ==>
      r == "År " + IntToString(year.i)
        + (if (year.i % 4 == 0 && year.i % 100 != 0) || year.i % 400 == 0 then " är ett skottår." else " är inte ett skottår.")
  {
    if !year.Int? then "Var god ange ett giltigt heltal för året."
    else
      var leap := IsLeap(year);
      if leap.None? then "Ogiltigt år."
      else if leap.value then IsLeapRule(year.i); "År " + IntToString(year.i) + " är ett skottår."
      else IsLeapRule(year.i); "År " + IntToString(year.i) + " är inte ett skottår."
  }

  // ---------------------------------------------------------------- Fibonacci

  function Fib(i: nat): nat {
    if i == 0 then 0 else if i == 1 then 1 else Fib(i - 1) + Fib(i - 2)
  }

  /** Fibonacci numbers never decrease. */
  lemma {:induction false} FibMonotone(i: nat, j: nat)
    requires i <= j
    ensures Fib(i) <= Fib(j)
  {
    if i < j {
      FibMonotone(i, j - 1);
      if j >= 2 {
        assert Fib(j) == Fib(j - 1) + Fib(j - 2);
      }
    }
  }

  /** The loop of `fibonacciGenerator`: the first `count` Fibonacci numbers. */
  method FibonacciNumbers(count: nat) returns (fib: seq<nat>)
    ensures |fib| == count
    ensures forall k :: 0 <= k < count ==> fib[k] == Fib(k)
  {
    fib := [];
    for i := 0 to count
      invariant |fib| == i
      invariant forall k {:trigger fib[k]} :: 0 <= k < i ==> fib[k] == Fib(k)
    {
      var next: nat;
      if i == 0 {
        next := 0;
      } else if i == 1 {
        next := 1;
      } else {
        next := fib[i - 1] + fib[i - 2];
      }
      assert next == Fib(i);
      fib := fib + [next];
    }
  }

  /** A prefix of the Fibonacci numbers: each after the first two is the sum of the two before. */
  lemma FibonacciRecurrence(fib: seq<nat>)
    requires forall k :: 0 <= k < |fib| ==> fib[k] == Fib(k)
    ensures forall i :: 2 <= i < |fib| ==> fib[i] == fib[i - 1] + fib[i - 2]
  {
    forall i | 2 <= i < |fib|
      ensures fib[i] == fib[i - 1] + fib[i - 2]
    {
      assert Fib(i) == Fib(i - 1) + Fib(i - 2);
    }
  }

  /**
   * `fibonacciGenerator`: `None` (JavaScript `null`) unless `n` is a non-negative integer;
   * otherwise the first `n` Fibonacci numbers.
   */
  method FibonacciGenerator(n: JsNum) returns (r: Option<seq<nat>>)
    ensures r.None? <==> !IsNonNegativeInteger(n)
    ensures r.Some? ==> |r.value| == n.i && forall k :: 0 <= k < |r.value| ==> r.value[k] == Fib(k)
  {
    if !IsNonNegativeInteger(n) {
      return None;
    }
    var fib := FibonacciNumbers(n.i);
    r := Some(fib);
  }

  // ---------------------------------------------------------------- "a, b och c"

  /** `joinWithOch`: the Swedish list "a, b och c". */
  function JoinWithOch(arr: seq<string>): (r: string)
    ensures |arr| == 0 ==> r == ""
    ensures |arr| == 1 ==> r == arr[0]
    ensures |arr| == 2 ==> r == arr[0] + " och " + arr[1]
  {
    if |arr| == 0 then ""
    else if |arr| == 1 then arr[0]
    else if |arr| == 2 then arr[0] + " och " + arr[1]
    else Join(arr[..|arr| - 1], ", ") + " och " + arr[|arr| - 1]
  }

  /** The same list read from the front: each item but the last two is followed by a comma. */
  function OchList(arr: seq<string>): string {
    if |arr| == 0 then ""
    else if |arr| == 1 then arr[0]
    else if |arr| == 2 then arr[0] + " och " + arr[1]
    else arr[0] + ", " + OchList(arr[1..])
  }

  lemma {:induction false} JoinWithOchIsOchList(arr: seq<string>)
    ensures JoinWithOch(arr) == OchList(arr)
    decreases |arr|
  {
    if |arr| >= 3 {
      var init := arr[..|arr| - 1];
      assert init[1..] == arr[1..][..|arr[1..]| - 1];
      assert arr[1..][|arr[1..]| - 1] == arr[|arr| - 1];
      JoinWithOchIsOchList(arr[1..]);
      if |arr| == 3 {
        assert init[1..] == [arr[1]];
      }
    }
  }

  // ---------------------------------------------------------------- FizzBuzz

  /** The divisors among 2, 3 and 5 that `runFizzBuzz` lists for `i`, in ascending order. */
  function Divisors(i: int): (r: seq<int>)
    ensures forall d :: d in r <==> d in [2, 3, 5] && i % d == 0
    ensures forall a, b :: 0 <= a < b < |r| ==> r[a] < r[b]
  {
    (if i % 2 == 0 then [2] else []) + (if i % 3 == 0 then [3] else []) + (if i % 5 == 0 then [5] else [])
  }

  function DivisorTexts(ds: seq<int>): (r: seq<string>)
    ensures |r| == |ds| && forall k :: 0 <= k < |ds| ==> r[k] == IntToString(ds[k])
  {
    if ds == [] then [] else [IntToString(ds[0])] + DivisorTexts(ds[1..])
  }

  /** One list item: how many divisors (its style class) and its text. */
  datatype Item = Item(divisorCount: nat, text: string)

  /** The item for `i`: the number alone, or "i är delbart med ..." listing the divisors. */
  function ItemFor(i: int): Item {
    var divisors := Divisors(i);
    if |divisors| == 0 then Item(0, IntToString(i))
    else Item(|divisors|, IntToString(i) + " är delbart med " + JoinWithOch(DivisorTexts(divisors)) + ".")
  }

  /** An item shows just the number exactly when none of 2, 3 and 5 divides it. */
  lemma ItemTextIsNumberIff(i: int)
    ensures ItemFor(i).text == IntToString(i) <==> Divisors(i) == []
    ensures ItemFor(i).divisorCount == |Divisors(i)| <= 3
  {
    if Divisors(i) != [] {
      var text := ItemFor(i).text;
      assert |text| > |IntToString(i)|;
    }
  }

  /** Every multiple of 30 is listed with all three divisors. */
  lemma MultiplesOfThirty(k: int)
    ensures Divisors(30 * k) == [2, 3, 5]
  {
    var m := 30 * k;
    assert m == 2 * (15 * k) && m % 2 == 0;
    assert m == 3 * (10 * k) && m % 3 == 0;
    assert m == 5 * (6 * k) && m % 5 == 0;
  }

  /** One pass of `runFizzBuzz`'s loop: collect the divisors of `i`, then build its item. */
  method FizzBuzzItem(i: int) returns (item: Item)
    ensures item == ItemFor(i)
  {
    var divisors: seq<int> := [];
    if i % 2 == 0 {
      divisors := divisors + [2];
    }
    if i % 3 == 0 {
      divisors := divisors + [3];
    }
    if i % 5 == 0 {
      divisors := divisors + [5];
    }
    assert divisors == Divisors(i);
    if |divisors| == 0 {
      item := Item(0, IntToString(i));
    } else {
      item := Item(|divisors|, IntToString(i) + " är delbart med " + JoinWithOch(DivisorTexts(divisors)) + ".");
    }
  }

  /**
   * `runFizzBuzz` for the number read from the field: an error text and no list unless it is an
   * integer of at least 1; otherwise one item per number from 1 to `n`. The warning for values
   * over 5000 is written and then replaced by the final summary in the same call.
   */
  method RunFizzBuzz(n: JsNum) returns (info: string, items: seq<Item>)
    ensures !(n.Int? && n.i >= 1) ==> info == "Ange ett giltigt heltal >= 1." && items == []
    ensures n.Int? && n.i >= 1 ==>
      info == "Visar resultat för 1 → " + IntToString(n.i) + "."
      && |items| == n.i && forall k {:trigger items[k]} :: 0 <= k < |items| ==> items[k] == ItemFor(k + 1)
  {
    items := [];
    info := "";
    if !n.Int? || n.i < 1 {
      info := "Ange ett giltigt heltal >= 1.";
      return;
    }
    if n.i > 5000 {
      info := "Varning: stort värde kan göra sidan långsam. Begränsa under 5000.";
    }
    items := FizzBuzzItems(n.i);
    info := "Visar resultat för 1 → " + IntToString(n.i) + ".";
  }

  /** The loop of `runFizzBuzz`: one item per number from 1 to `n`, in order. */
  method FizzBuzzItems(n: nat) returns (items: seq<Item>)
    ensures |items| == n && forall k {:trigger items[k]} :: 0 <= k < n ==> items[k] == ItemFor(k + 1)
  {
    items := [];
    var i := 1;
    while i <= n
      invariant 1 <= i <= n + 1
      invariant |items| == i - 1
      invariant forall k {:trigger items[k]} :: 0 <= k < |items| ==> items[k] == ItemFor(k + 1)
    {
      var item := FizzBuzzItem(i);
      items := items + [item];
      i := i + 1;
    }
  }

  // ---------------------------------------------------------------- the beer song

  // The fixed pieces of the song's lines. The stanza texts below are the source's lines,
  // written out from these pieces.
  const OnTheWall := " of beer on the wall, "
  const OfBeer := " of beer."
  const TakeOneDown := "Take one down and pass it around, "
  const LeftOnTheWall := " of beer on the wall."
  const GoToTheStore := "Go to the store and buy some more, "

  /** The lines for two bottles, one bottle, and none (the restocking stanza). */
  const StanzaTwo: seq<string> := ["2 bottles" + OnTheWall + "2 bottles" + OfBeer, TakeOneDown + "1 bottle" + LeftOnTheWall]
  const StanzaOne: seq<string> := ["1 bottle" + OnTheWall + "1 bottle" + OfBeer, TakeOneDown + "no more bottles" + LeftOnTheWall]
  const StanzaRestock: seq<string> := ["No more bottles" + OnTheWall + "no more bottles" + OfBeer, GoToTheStore + "99 bottles" + LeftOnTheWall]

  /** `stanzaLines(n)`: the two lines of stanza `n`; at 0 or below, the restocking stanza. */
  function StanzaLines(n: int): (r: seq<string>)
    ensures |r| == 2
  {
    if n > 2 then
      var bottles := IntToString(n) + " bottles";
      [bottles + OnTheWall + bottles + OfBeer,
       TakeOneDown + (IntToString(n - 1) + " " + (if n - 1 == 1 then "bottle" else "bottles")) + LeftOnTheWall]
    else if n == 2 then StanzaTwo
    else if n == 1 then StanzaOne
    else StanzaRestock
  }

  /** How the song names a count of bottles in mid-sentence. */
  function BottlesPhrase(k: int): string {
    if k == 0 then "no more bottles"
    else if k == 1 then "1 bottle"
    else IntToString(k) + " bottles"
  }

  /** A counting stanza in one pattern, with the bottles phrase before and after. */
  function StanzaByPhrase(n: int): seq<string> {
    [BottlesPhrase(n) + OnTheWall + BottlesPhrase(n) + OfBeer,
     TakeOneDown + BottlesPhrase(n - 1) + LeftOnTheWall]
  }

  lemma TwoBottles()
    ensures BottlesPhrase(2) == "2 bottles"
  {
    assert NatToString(2) == [DigitChar(2)];
    assert "2" + " bottles" == "2 bottles";
  }

  lemma SpacedBottles(count: string)
    ensures count + " " + "bottles" == count + " bottles"
  {
    assert " " + "bottles" == " bottles";
  }

  /**
   * Every counting stanza follows one pattern: `n` bottles, take one down, `n - 1` left, with
   * "bottle" only for exactly one and "no more bottles" for none.
   */
  lemma StanzaPattern(n: int)
    requires n >= 1
    ensures StanzaLines(n) == StanzaByPhrase(n)
  {
    if n == 2 {
      TwoBottles();
    } else if n > 2 {
      SpacedBottles(IntToString(n - 1));
    }
  }

  /** The song from stanza `i` down to the restock stanza, a blank line between stanzas. */
  function SongFrom(i: nat): seq<string> {
    if i == 0 then StanzaLines(0) else StanzaLines(i) + [""] + SongFrom(i - 1)
  }

  lemma {:induction false} SongFromLength(i: nat)
    ensures |SongFrom(i)| == 3 * i + 2
  {
    if i > 0 {
      SongFromLength(i - 1);
    }
  }

  const SongCap := 300

  lemma SongFromStep(parts: seq<string>, i: nat, stanza: seq<string>)
    requires stanza == StanzaLines(i)
    ensures i != 0 ==> parts + SongFrom(i) == parts + stanza + [""] + SongFrom(i - 1)
    ensures i == 0 ==> parts + SongFrom(i) == parts + stanza
  {
    if i != 0 {
      assert SongFrom(i) == stanza + [""] + SongFrom(i - 1);
    }
  }

  /** The loop of `generateSong`: stanzas from `cap` down to 0, a blank line after all but the last. */
  method SongParts(cap: nat) returns (parts: seq<string>)
    ensures parts == SongFrom(cap)
    ensures |parts| == 3 * cap + 2
  {
    parts := [];
    var i: int := cap;
    while i >= 0
      invariant -1 <= i <= cap
      invariant i >= 0 ==> parts + SongFrom(i) == SongFrom(cap)
      invariant i == -1 ==> parts == SongFrom(cap)
    {
      var stanza := StanzaLines(i);
      SongFromStep(parts, i, stanza);
      parts := parts + stanza;
      if i != 0 {
        parts := parts + [""];
      }
      i := i - 1;
    }
    SongFromLength(cap);
  }

  /**
   * `generateSong` for the number read from the field: empty with an error note unless it is
   * a non-negative integer; otherwise the stanzas from `min(n, 300)` down to 0, plus a
   * truncation note when `n` exceeds 300, joined by newlines.
   */
  method GenerateSong(value: JsNum) returns (info: string, parts: seq<string>, song: string)
    ensures !IsNonNegativeInteger(value) ==> info == "Ange ett giltigt heltal >= 0." && song == ""
    ensures IsNonNegativeInteger(value) ==>
      var cap := if value.i < SongCap then value.i else SongCap;
      && info == (if value.i > SongCap then "Stort antal — visar upp till 300 för prestanda." else "")
      && parts == SongFrom(cap)
         + (if value.i > cap then ["", "...truncated (" + IntToString(value.i - cap) + " stanzas borttagnade för prestanda)."] else [])
      && |parts| == 3 * cap + 2 + (if value.i > cap then 2 else 0)
      && song == Join(parts, "\n")
  {
    parts := [];
    if !IsNonNegativeInteger(value) {
      info := "Ange ett giltigt heltal >= 0.";
      song := "";
      return;
    }
    if value.i > SongCap {
      info := "Stort antal — visar upp till 300 för prestanda.";
    } else {
      info := "";
    }
    var cap := if value.i < SongCap then value.i else SongCap;
    parts := SongParts(cap);
    if value.i > cap {
      parts := parts + ["", "...truncated (" + IntToString(value.i - cap) + " stanzas borttagnade för prestanda)."];
    }
    song := Join(parts, "\n");
  }

  // ---------------------------------------------------------------- who pays for lunch

  predicate IsSeparator(c: char) {
    c == ',' || c == ';' || c == '\n'
  }

  /** The pieces of `s` between separator characters, empty ones included. */
  function Fields(s: string): (r: seq<string>)
    ensures |r| >= 1
    ensures forall k, j :: 0 <= k < |r| && 0 <= j < |r[k]| ==> !IsSeparator(r[k][j])
  {
    if s == [] then [""]
    else
      var rest := Fields(s[1..]);
      if IsSeparator(s[0]) then [""] + rest else [[s[0]] + rest[0]] + rest[1..]
  }

  /** Trims every piece and drops the empty ones: `.map(trim).filter(Boolean)`. */
  function TrimAndDropEmpty(fields: seq<string>): (r: seq<string>)
    ensures |r| <= |fields|
    ensures forall k :: 0 <= k < |r| ==> r[k] != ""
  {
    if fields == [] then []
    else
      var t := Trim(fields[0]);
      var rest := TrimAndDropEmpty(fields[1..]);
      if t == "" then rest else [t] + rest
  }

  /**
   * `parseNames`: the names between commas, semicolons and newlines, trimmed, empty ones
   * dropped. The regular expression splits on runs of separators; that differs from splitting
   * on each separator only by empty pieces, which are dropped either way.
   */
  function ParseNames(raw: string): (r: seq<string>)
    ensures raw == "" ==> r == []
    ensures forall k :: 0 <= k < |r| ==> r[k] != "" && Trim(r[k]) == r[k]
    ensures forall k, j :: 0 <= k < |r| && 0 <= j < |r[k]| ==> !IsSeparator(r[k][j])
  {
    if raw == "" then []
    else
      var fields := Fields(raw);
      assert forall f :: f in fields ==> NoSeparator(f);
      TrimmedFieldsClean(fields);
      var r := TrimAndDropEmpty(fields);
      assert forall k :: 0 <= k < |r| ==> r[k] in r;
      r
  }

  predicate NoSeparator(s: string) {
    forall j :: 0 <= j < |s| ==> !IsSeparator(s[j])
  }

  /** Trimmed separator-free pieces stay trimmed and separator-free. */
  lemma {:induction false} TrimmedFieldsClean(fields: seq<string>)
    requires forall f :: f in fields ==> NoSeparator(f)
    ensures forall name :: name in TrimAndDropEmpty(fields) ==> Trim(name) == name && NoSeparator(name)
  {
    if fields != [] {
      TrimmedFieldsClean(fields[1..]);
      TrimmedPieceClean(fields[0]);
      var t := Trim(fields[0]);
      if t != "" {
        assert TrimAndDropEmpty(fields) == [t] + TrimAndDropEmpty(fields[1..]);
      }
    }
  }

  /** Every name kept is one of the pieces, trimmed: the filter only drops. */
  lemma {:induction false} NamesAreTrimmedFields(fields: seq<string>)
    ensures forall name :: name in TrimAndDropEmpty(fields) ==> exists f :: f in fields && name == Trim(f)
  {
    if fields != [] {
      NamesAreTrimmedFields(fields[1..]);
      var t := Trim(fields[0]);
      if t != "" {
        assert TrimAndDropEmpty(fields) == [t] + TrimAndDropEmpty(fields[1..]);
      }
    }
  }

  /** One separator-free piece, trimmed, is trimmed and separator-free. */
  lemma TrimmedPieceClean(piece: string)
    requires NoSeparator(piece)
    ensures Trim(Trim(piece)) == Trim(piece) && NoSeparator(Trim(piece))
  {
    TrimIdempotent(piece);
    TrimIsSlice(piece);
  }

  /** A name that is already clean: non-empty, trimmed, with no separator in it. */
  predicate CleanName(name: string) {
    name != [] && Trim(name) == name && forall j :: 0 <= j < |name| ==> !IsSeparator(name[j])
  }

  lemma {:induction false} FieldsOfPlain(a: string)
    requires forall j :: 0 <= j < |a| ==> !IsSeparator(a[j])
    ensures Fields(a) == [a]
  {
    if a != [] {
      FieldsOfPlain(a[1..]);
      assert [a[0]] + a[1..] == a;
    }
  }

  lemma {:induction false} FieldsAfterPlain(a: string, c: char, b: string)
    requires forall j :: 0 <= j < |a| ==> !IsSeparator(a[j])
    requires IsSeparator(c)
    ensures Fields(a + [c] + b) == [a] + Fields(b)
  {
    if a == [] {
      assert a + [c] + b == [c] + b;
      assert ([c] + b)[1..] == b;
    } else {
      var s := a + [c] + b;
      assert s[1..] == a[1..] + [c] + b;
      FieldsAfterPlain(a[1..], c, b);
      assert [a[0]] + a[1..] == a;
    }
  }

  lemma TrimAfterSpace(name: string)
    requires CleanName(name)
    ensures Trim(" " + name) == name
  {
    assert (" " + name)[1..] == name;
  }

  lemma JoinCons(names: seq<string>)
    requires |names| >= 2
    ensures Join(names, ", ") == names[0] + [','] + (" " + Join(names[1..], ", "))
  {
  }

  lemma ReplaceHeadIndex<T>(x: T, s: seq<T>, k: int)
    requires 1 <= k < |s|
    ensures ([x] + s[1..])[k] == s[k]
  {
  }

  lemma FieldsOfSpaced(rest: string)
    ensures Fields(" " + rest) == [" " + Fields(rest)[0]] + Fields(rest)[1..]
  {
    assert (" " + rest)[1..] == rest;
  }

  /** Fields of names joined with ", ": the first as is, every later one behind a space. */
  lemma {:induction false} FieldsOfJoined(names: seq<string>)
    requires |names| >= 1 && forall k :: 0 <= k < |names| ==> CleanName(names[k])
    ensures |Fields(Join(names, ", "))| == |names|
    ensures Fields(Join(names, ", "))[0] == names[0]
    ensures forall k :: 1 <= k < |names| ==> Fields(Join(names, ", "))[k] == " " + names[k]
  {
    if |names| == 1 {
      FieldsOfPlain(names[0]);
    } else {
      var rest := Join(names[1..], ", ");
      JoinCons(names);
      FieldsAfterPlain(names[0], ',', " " + rest);
      FieldsOfJoined(names[1..]);
      FieldsOfSpaced(rest);
      var fr := Fields(rest);
      var f := Fields(Join(names, ", "));
      var g := [" " + fr[0]] + fr[1..];
      assert f == [names[0]] + g;
      forall k | 1 <= k < |names|
        ensures f[k] == " " + names[k]
      {
        assert f[k] == g[k - 1];
        if k >= 2 {
          ReplaceHeadIndex(" " + fr[0], fr, k - 1);
          assert fr[k - 1] == " " + names[1..][k - 1];
        }
      }
    }
  }

  /** Names written out as "a, b, c" are read back unchanged. */
  lemma ParseNamesOfJoined(names: seq<string>)
    requires |names| >= 1 && forall k :: 0 <= k < |names| ==> CleanName(names[k])
    ensures ParseNames(Join(names, ", ")) == names
  {
    var raw := Join(names, ", ");
    FieldsOfJoined(names);
    var fields := Fields(raw);
    assert raw != "" by {
      JoinLength(names, ", ");
      assert |raw| >= |names[0]| by {
        if |names| > 1 { assert raw == names[0] + ", " + Join(names[1..], ", "); }
      }
    }
    CleanFieldsDropNothing(fields, names);
  }

  lemma CleanFieldsDropNothing(fields: seq<string>, names: seq<string>)
    requires |fields| == |names| >= 1
    requires forall k :: 0 <= k < |names| ==> CleanName(names[k])
    requires fields[0] == names[0] && forall k :: 1 <= k < |names| ==> fields[k] == " " + names[k]
    ensures TrimAndDropEmpty(fields) == names
  {
    forall k | 0 <= k < |names|
      ensures names[k] != "" && Trim(fields[k]) == names[k]
    {
      FieldTrimsToName(fields[k], names[k], k);
    }
    TrimmedFieldsDropNothing(fields, names);
  }

  lemma FieldTrimsToName(field: string, name: string, k: int)
    requires CleanName(name)
    requires k == 0 ==> field == name
    requires k != 0 ==> field == " " + name
    ensures name != "" && Trim(field) == name
  {
    if k != 0 {
      TrimAfterSpace(name);
    }
  }


  /** Pieces that all trim to non-empty names are kept, each as its trimmed self. */
  lemma {:induction false} TrimmedFieldsDropNothing(fields: seq<string>, names: seq<string>)
    requires |fields| == |names|
    requires forall k :: 0 <= k < |names| ==> names[k] != "" && Trim(fields[k]) == names[k]
    ensures TrimAndDropEmpty(fields) == names
  {
    if fields != [] {
      TrimmedFieldsDropNothing(fields[1..], names[1..]);
      assert TrimAndDropEmpty(fields) == [names[0]] + TrimAndDropEmpty(fields[1..]);
      assert [names[0]] + names[1..] == names;
    }
  }

  /**
   * `whosPaying`: `None` (JavaScript `null`) for no names, otherwise the name at the random
   * index `pick`, which stands for `Math.floor(Math.random() * names.length)`.
   */
  function WhosPaying(names: seq<string>, pick: nat): (r: Option<string>)
    requires names != [] ==> pick < |names|
    ensures r.None? <==> names == []
    ensures r.Some? ==> r.value in names
  {
    if |names| == 0 then None else Some(names[pick])
  }

  /** `pickAndShow`: a prompt for an empty list, otherwise who pays. */
  function PickAndShow(input: string, pick: nat): (r: string)
    requires ParseNames(input) != [] ==> pick < |ParseNames(input)|
    ensures ParseNames(input) == [] ==> r == "Skriv in minst ett namn (separera med kommatecken)."
    ensures ParseNames(input) != [] ==> r == ParseNames(input)[pick] + " ska bjuda på lunch idag!"
  {
    var names := ParseNames(input);
    if |names| == 0 then "Skriv in minst ett namn (separera med kommatecken)."
    else WhosPaying(names, pick).value + " ska bjuda på lunch idag!"
  }

  // ---------------------------------------------------------------- guest list

  const GuestList: seq<string> := ["Maja", "Anton", "Josefin", "Janne", "Barbro", "Lilly", "Lava", "Marie", "Mats", "Signe", "Alvin"]

  /** `guestList.find(...)`: the first guest equal to `name` when both are lower-cased. */
  function FindGuest(guests: seq<string>, name: string): (r: Option<string>)
    ensures r.None? <==> forall g :: g in guests ==> Lower(g) != Lower(name)
    ensures r.Some? ==> r.value in guests && Lower(r.value) == Lower(name)
  {
    if guests == [] then None
    else if Lower(guests[0]) == Lower(name) then Some(guests[0])
    else FindGuest(guests[1..], name)
  }

  /** `checkName` against a guest list: a prompt for an empty name, a welcome with the list's spelling, or a refusal. */
  function CheckNameAgainst(guests: seq<string>, input: string): (r: string)
  {
    var name := Trim(input);
    if name == "" then "Skriv in ett namn."
    else
      var found := FindGuest(guests, name);
      if found.Some? then "Välkommen till festen, " + found.value + "!"
      else name + " är inte på gästlistan."
  }

  /** `checkName`, with the page's fixed guest list. */
  function CheckName(input: string): string {
    CheckNameAgainst(GuestList, input)
  }

  /**
   * A non-blank name is welcomed exactly when some guest matches it case-insensitively, and
   * then under a matching guest's own spelling; otherwise the trimmed name is refused.
   */
  lemma CheckNameOutcome(guests: seq<string>, input: string)
    ensures Trim(input) == "" ==> CheckNameAgainst(guests, input) == "Skriv in ett namn."
    ensures Trim(input) != "" && (exists g :: g in guests && Lower(g) == Lower(Trim(input))) ==>
      exists g :: g in guests && Lower(g) == Lower(Trim(input))
        && CheckNameAgainst(guests, input) == "Välkommen till festen, " + g + "!"
    ensures Trim(input) != "" && (forall g :: g in guests ==> Lower(g) != Lower(Trim(input))) ==>
      CheckNameAgainst(guests, input) == Trim(input) + " är inte på gästlistan."
  {
  }

  /** Two inputs that agree after trimming and lower-casing get the same welcome. */
  lemma CheckNameCaseInsensitive(guests: seq<string>, a: string, b: string)
    requires Lower(Trim(a)) == Lower(Trim(b)) && Trim(a) != "" && FindGuest(guests, Trim(a)).Some?
    ensures CheckNameAgainst(guests, a) == CheckNameAgainst(guests, b)
  {
    FindGuestDependsOnLower(guests, Trim(a), Trim(b));
  }

  lemma {:induction false} FindGuestDependsOnLower(guests: seq<string>, x: string, y: string)
    requires Lower(x) == Lower(y)
    ensures FindGuest(guests, x) == FindGuest(guests, y)
  {
    if guests != [] {
      FindGuestDependsOnLower(guests[1..], x, y);
    }
  }

  // ---------------------------------------------------------------- character counter

  const MaxChars := 140

  /** `updateCounter`: the length typed so far, the maximum and what is left. */
  function CounterText(value: string): string {
    IntToString(|value|) + " / " + IntToString(MaxChars) + " (" + IntToString(MaxChars - |value|) + " kvar)"
  }

  /**
   * The counter shows the length against the fixed maximum of 140; the count left is the
   * difference, written with a minus sign once the text is longer than the maximum.
   */
  lemma CounterCounts(value: string)
    ensures CounterText(value) == IntToString(|value|) + " / 140 (" + IntToString(MaxChars - |value|) + " kvar)"
    ensures |value| > MaxChars <==> IntToString(MaxChars - |value|)[0] == '-'
  {
    assert IntToString(140) == "140" by {
      assert NatToString(140) == NatToString(14) + ['0'];
      assert NatToString(14) == NatToString(1) + ['4'];
    }
  }

  /** The first `MaxChars` characters, `value.slice(0, MAX)`. */
  function Clipped(value: string): (r: string)
    ensures |r| <= MaxChars && |r| <= |value| && r == value[..|r|]
    ensures |r| == if |value| < MaxChars then |value| else MaxChars
  {
    if |value| <= MaxChars then value else value[..MaxChars]
  }

  /** `updatePreview`: the clipped text, then how many characters it has and how many remain. */
  function PreviewText(value: string): (r: string)
    ensures |r| > |Clipped(value)| && r[..|Clipped(value)|] == Clipped(value)
    ensures MaxChars - |Clipped(value)| >= 0
  {
    var text := Clipped(value);
    var chars := |text|;
    text + "\n\nDu har skrivit " + IntToString(chars) + " tecken och har " + IntToString(MaxChars - chars)
      + " tecken kvar tills max antal av " + IntToString(MaxChars) + "."
  }

  /** The preview begins with exactly the text a field of at most 140 characters holds. */
  lemma PreviewStartsWithText(value: string)
    requires |value| <= MaxChars
    ensures PreviewText(value)[..|value|] == value
  {
  }

  // ---------------------------------------------------------------- dog years

  /**
   * `calcHumanYears` for a whole number of years: an error for non-finite or negative input,
   * otherwise `round((age - 2) * 4 + 21)`, which for an integer age is `4 * age + 13`.
   */
  function CalcHumanYears(age: JsNum): (r: string)
    requires !age.Fraction?
    ensures age.NotFinite? ==> r == "Var god ange ett giltigt nummer."
    ensures age.Int? && age.i < 0 ==> r == "Åldern kan inte vara negativ."
  {
    if age.NotFinite? then "Var god ange ett giltigt nummer."
    else if age.i < 0 then "Åldern kan inte vara negativ."
    else
      var human := (age.i - 2) * 4 + 21;
      "Din " + IntToString(age.i) + " år gamla hund är " + IntToString(human) + " år gammal i hundår."
  }

  /** Each further dog year adds four human years, and a one-year-old dog is seventeen. */
  lemma DogYearsLinear(a: nat)
    ensures CalcHumanYears(Int(a)) ==
      "Din " + IntToString(a) + " år gamla hund är " + IntToString(4 * a + 13) + " år gammal i hundår."
  {
  }
}
