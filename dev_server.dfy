/**
 * The achievement API of the development server (`serve.py`): one shared progress record of
 * clicks and unlocked keys, read by `GET /api/achievements` and replaced by a validated
 * `POST /api/achievements`.
 */
module DevServer {
  import opened Wrappers
  import opened JsText
  import opened Json

  const ApiPath := "/api/achievements"

  // ---------------------------------------------------------------- Python's int()

  /** Characters `str.isspace` accepts, which `int()` strips from both ends of its argument. */
  predicate IsPySpace(c: char) {
    ('\t' <= c <= '\r') || ('\U{1C}' <= c <= '\U{1F}') || c == ' ' || c == '\U{85}' || c == '\U{A0}'
    || c == '\U{1680}' || ('\U{2000}' <= c <= '\U{200A}') || c == '\U{2028}' || c == '\U{2029}'
    || c == '\U{202F}' || c == '\U{205F}' || c == '\U{3000}'
  }

  function StripStart(s: string): (r: string)
    ensures |r| <= |s| && r == s[|s| - |r|..]
    ensures r == [] || !IsPySpace(r[0])
  {
    if s != [] && IsPySpace(s[0]) then StripStart(s[1..]) else s
  }

  function StripEnd(s: string): (r: string)
    ensures |r| <= |s| && r == s[..|r|]
    ensures r == [] || !IsPySpace(r[|r| - 1])
  {
    if s != [] && IsPySpace(s[|s| - 1]) then StripEnd(s[..|s| - 1]) else s
  }

  predicate AllDigits(s: string) {
    forall k :: 0 <= k < |s| ==> IsDigit(s[k])
  }

  /** `int(s)` for a string: optional surrounding whitespace, an optional sign, then decimal digits. */
  function PyIntOfString(s: string): (r: Option<int>)
    ensures r.Some? ==> StripEnd(StripStart(s)) != []
  {
    PyIntOfStripped(StripEnd(StripStart(s)))
  }

  /** `int` of a string already stripped of surrounding whitespace. */
  function PyIntOfStripped(t: string): Option<int> {
    if t == [] then None
    else
      var negative := t[0] == '-';
      var digits := if t[0] == '-' || t[0] == '+' then t[1..] else t;
      if digits == [] || !AllDigits(digits) then None
      else if negative then Some(-(DigitsValue(digits) as int))
      else Some(DigitsValue(digits))
  }

  /** `int(str(i)) == i`: what the server writes as a number it reads back. */
  lemma PyIntOfIntToString(i: int)
    ensures PyIntOfString(IntToString(i)) == Some(i)
  {
    var s := IntToString(i);
    var n: nat := if i < 0 then -i else i;
    NatToStringValue(n);
    if i < 0 {
      assert s[1..] == NatToString(n) by {
        assert s == "-" + NatToString(n);
      }
      PyIntOfSignedDigits(s);
    } else {
      PyIntOfDigits(s);
    }
  }

  /** A string with no whitespace at either end is parsed as it stands. */
  lemma Unstripped(s: string)
    requires s != [] && !IsPySpace(s[0]) && !IsPySpace(s[|s| - 1])
    ensures PyIntOfString(s) == PyIntOfStripped(s)
  {
    assert StripStart(s) == s;
    assert StripEnd(s) == s;
  }

  lemma PyIntOfDigits(s: string)
    requires s != [] && forall k :: 0 <= k < |s| ==> IsDigit(s[k])
    ensures PyIntOfString(s) == Some(DigitsValue(s) as int)
  {
    assert IsDigit(s[0]) && IsDigit(s[|s| - 1]);
    Unstripped(s);
    StrippedDigits(s);
  }

  lemma StrippedDigits(s: string)
    requires s != [] && AllDigits(s)
    ensures PyIntOfStripped(s) == Some(DigitsValue(s) as int)
  {
    assert IsDigit(s[0]);
  }

  lemma PyIntOfSignedDigits(s: string)
    requires |s| >= 2 && s[0] == '-' && forall k :: 1 <= k < |s| ==> IsDigit(s[k])
    ensures PyIntOfString(s) == Some(-(DigitsValue(s[1..]) as int))
  {
    assert IsDigit(s[|s| - 1]);
    Unstripped(s);
    StrippedSignedDigits(s);
  }

  lemma StrippedSignedDigits(s: string)
    requires |s| >= 2 && s[0] == '-' && AllDigits(s[1..])
    ensures PyIntOfStripped(s) == Some(-(DigitsValue(s[1..]) as int))
  {
  }


  /** Python's `int(x)` for each value `json.loads` can produce; `None` where it raises. */
  function PyInt(v: Json): (r: Option<int>)
    ensures v.JInt? ==> r == Some(v.i)
    ensures v.JNull? || v.JNonFinite? || v.JArray? || v.JObject? ==> r.None?
    ensures v.JBool? ==> r == Some(if v.b then 1 else 0)
  {
    match v
    case JInt(i) => Some(i)
    case JBool(b) => Some(if b then 1 else 0)
    case JFloat(r) => Some(if r >= 0.0 then r.Floor else -((-r).Floor))
    case JString(s) => PyIntOfString(s)
    case _ => None
  }

  /** `int()` of a float truncates toward zero: it keeps the sign and drops less than one. */
  lemma PyIntOfFloat(r: real)
    ensures PyInt(JFloat(r)).Some?
    ensures var n := PyInt(JFloat(r)).value;
      (r >= 0.0 ==> 0 <= n && n as real <= r < n as real + 1.0)
      && (r < 0.0 ==> n <= 0 && n as real - 1.0 < r <= n as real)
  {
  }

  // ---------------------------------------------------------------- the request body

  /** What `do_POST` reads: no body, bytes that are not JSON (or not UTF-8), or a JSON value. */
  datatype Body = NoBody | Malformed | Parsed(value: Json)

  /** Why a payload is answered with 400 Bad Request. */
  datatype PayloadError = NotJson | NoGetMethod | ClicksNotAnInteger | UnlockedNotAList

  /**
   * The `try` block of `do_POST`: an empty body is `{}`; otherwise the body must be a JSON
   * object (Python's `.get` exists only on dicts), `clicks` (default 0) must convert with
   * `int()`, and `unlocked` (default `[]`) must be a list.
   */
  function Validate(body: Body): (r: Result<(int, seq<Json>), PayloadError>)
    ensures body.NoBody? ==> r == Ok((0, []))
    ensures body.Malformed? ==> r == Err(NotJson)
    ensures body.Parsed? && !body.value.JObject? ==> r == Err(NoGetMethod)
    ensures r.Ok? && body.Parsed? ==>
      && (Get(body.value.members, "clicks").None? ==> r.value.0 == 0)
      && (Get(body.value.members, "clicks").Some? ==> Some(r.value.0) == PyInt(Get(body.value.members, "clicks").value))
      && (Get(body.value.members, "unlocked").None? ==> r.value.1 == [])
      && (Get(body.value.members, "unlocked").Some? ==> Get(body.value.members, "unlocked").value == JArray(r.value.1))
    ensures body.Parsed? && body.value.JObject? ==>
      (r.Ok? <==>
        (Get(body.value.members, "clicks").None? || PyInt(Get(body.value.members, "clicks").value).Some?)
        && (Get(body.value.members, "unlocked").None? || Get(body.value.members, "unlocked").value.JArray?))
  {
    match body
    case NoBody => Ok((0, []))
    case Malformed => Err(NotJson)
    case Parsed(v) =>
      if !v.JObject? then Err(NoGetMethod)
      else
        var clicksField := Get(v.members, "clicks");
        var clicks := if clicksField.None? then Some(0) else PyInt(clicksField.value);
        if clicks.None? then Err(ClicksNotAnInteger)
        else
          var unlockedField := Get(v.members, "unlocked");
          var unlocked := if unlockedField.None? then JArray([]) else unlockedField.value;
          if !unlocked.JArray? then Err(UnlockedNotAList)
          else Ok((clicks.value, unlocked.items))
  }

  // ---------------------------------------------------------------- de-duplicating keys

  /** The string elements of `items`, each kept at its first occurrence. */
  function UniqueStrings(items: seq<Json>): seq<string>
  {
    if items == [] then []
    else
      var prev := UniqueStrings(items[..|items| - 1]);
      var last := items[|items| - 1];
      if last.JString? && last.s !in prev then prev + [last.s] else prev
  }

  predicate Distinct(keys: seq<string>) {
    forall a, b :: 0 <= a < b < |keys| ==> keys[a] != keys[b]
  }

  /** The index at which the string `key` first occurs in `items`. */
  function FirstIndex(items: seq<Json>, key: string): (r: nat)
    requires JString(key) in items
    ensures r < |items| && items[r] == JString(key)
    ensures forall k :: 0 <= k < r ==> items[k] != JString(key)
  {
    if items[0] == JString(key) then 0 else 1 + FirstIndex(items[1..], key)
  }

  /**
   * The stored keys are exactly the strings of the payload, none twice, in the order in which
   * each first appears.
   */
  lemma {:induction false} UniqueStringsProperties(items: seq<Json>)
    ensures Distinct(UniqueStrings(items))
    ensures forall key :: key in UniqueStrings(items) <==> JString(key) in items
  {
    if items != [] {
      var init := items[..|items| - 1];
      UniqueStringsProperties(init);
      assert items == init + [items[|items| - 1]];
    }
  }

  lemma {:induction false} FirstIndexOfPrefix(items: seq<Json>, n: nat, key: string)
    requires n <= |items| && JString(key) in items[..n]
    ensures FirstIndex(items[..n], key) == FirstIndex(items, key)
  {
    if items[0] != JString(key) {
      assert items[..n][1..] == items[1..][..n - 1];
      FirstIndexOfPrefix(items[1..], n - 1, key);
    }
  }

  /** Every key comes from `items`, and earlier keys first occur earlier there. */
  predicate InFirstOccurrenceOrder(items: seq<Json>, keys: seq<string>) {
    forall a, b :: 0 <= a < b < |keys| ==>
      JString(keys[a]) in items && JString(keys[b]) in items
      && FirstIndex(items, keys[a]) < FirstIndex(items, keys[b])
  }

  lemma {:induction false} UniqueStringsOrder(items: seq<Json>)
    ensures InFirstOccurrenceOrder(items, UniqueStrings(items))
  {
    if items != [] {
      var n := |items| - 1;
      var init := items[..n];
      var prev := UniqueStrings(init);
      UniqueStringsOrder(init);
      assert InFirstOccurrenceOrder(init, prev);
      UniqueStringsProperties(init);
      assert items == init + [items[n]];
      var keys := UniqueStrings(items);
      forall a, b | 0 <= a < b < |keys|
        ensures JString(keys[a]) in items && JString(keys[b]) in items
        ensures FirstIndex(items, keys[a]) < FirstIndex(items, keys[b])
      {
        assert keys[a] in prev;
        assert JString(keys[a]) in init;
        FirstIndexOfPrefix(items, n, keys[a]);
        if b < |prev| {
          assert JString(keys[b]) in init;
          FirstIndexOfPrefix(items, n, keys[b]);
        } else {
          assert keys[b] == items[n].s && items[n] == JString(keys[b]) && keys[b] !in prev;
          assert JString(keys[b]) !in init;
          assert FirstIndex(items, keys[b]) == n;
        }
      }
      assert InFirstOccurrenceOrder(items, keys);
    }
  }

  /** Keys that are already unique strings come back unchanged. */
  lemma {:induction false} UniqueStringsOfDistinct(keys: seq<string>)
    requires Distinct(keys)
    ensures UniqueStrings(seq(|keys|, k requires 0 <= k < |keys| => JString(keys[k]))) == keys
  {
    if keys != [] {
      var n := |keys| - 1;
      var items := seq(|keys|, k requires 0 <= k < |keys| => JString(keys[k]));
      assert items[..n] == seq(n, k requires 0 <= k < n => JString(keys[..n][k]));
      UniqueStringsOfDistinct(keys[..n]);
      assert keys[n] !in keys[..n];
      assert keys[..n] + [keys[n]] == keys;
    }
  }

  /** The loop of `do_POST` that builds `unique_keys`. */
  method UniqueStringKeys(unlocked: seq<Json>) returns (uniqueKeys: seq<string>)
    ensures uniqueKeys == UniqueStrings(unlocked)
  {
    uniqueKeys := [];
    for i := 0 to |unlocked|
      invariant uniqueKeys == UniqueStrings(unlocked[..i])
    {
      var key := unlocked[i];
      assert unlocked[..i + 1][..i] == unlocked[..i];
      if key.JString? && key.s !in uniqueKeys {
        uniqueKeys := uniqueKeys + [key.s];
      }
    }
    assert unlocked[..|unlocked|] == unlocked;
  }

  // ---------------------------------------------------------------- the server

  /**
   * The JSON answers of the API; the static-file handler a GET on any other path falls through
   * to; and the failed handler of a POST on any other path, where the call to the base class's
   * `do_POST`, which `SimpleHTTPRequestHandler` does not define, raises `AttributeError`, so no
   * response is sent.
   */
  datatype Response =
    | Progress(clicks: int, unlocked: seq<string>)
    | StatusOk
    | BadRequest(reason: PayloadError)
    | StaticHandler
    | NoResponse

  /** The shared `_PROGRESS` record. */
  class ProgressServer {
    var clicks: int
    var unlocked: seq<string>

    /** What every accepted POST keeps: non-negative clicks and distinct keys. */
    predicate Valid()
      reads this
    {
      clicks >= 0 && Distinct(unlocked)
    }

    constructor ()
      ensures Valid() && clicks == 0 && unlocked == []
    {
      clicks := 0;
      unlocked := [];
    }

    /** `do_GET`: a snapshot of the record on the API path; any other path is a static file. */
    method Get(path: string) returns (response: Response)
      ensures path == ApiPath ==> response == Progress(clicks, unlocked)
      ensures path != ApiPath ==> response == StaticHandler
    {
      if path == ApiPath {
        response := Progress(clicks, unlocked);
      } else {
        response := StaticHandler;
      }
    }

    /**
     * `do_POST`: on the API path a valid payload replaces both fields, clicks clamped at 0 and
     * keys de-duplicated, and is answered `{"status": "ok"}`; an invalid one is answered 400 and
     * changes nothing. Any other path reaches the base class's missing `do_POST` and fails
     * without a response, changing nothing.
     */
    method Post(path: string, body: Body) returns (response: Response)
      requires Valid()
      modifies this
      ensures Valid()
      ensures path != ApiPath ==> response == NoResponse && unchanged(this)
      ensures path == ApiPath && Validate(body).Err? ==>
        response == BadRequest(Validate(body).error) && unchanged(this)
      ensures path == ApiPath && Validate(body).Ok? ==>
        var (newClicks, items) := Validate(body).value;
        && response == StatusOk
        && clicks == (if newClicks > 0 then newClicks else 0)
        && unlocked == UniqueStrings(items)
    {
      if path != ApiPath {
        return NoResponse;
      }
      var payload := Validate(body);
      if payload.Err? {
        return BadRequest(payload.error);
      }
      var (newClicks, items) := payload.value;
      clicks := if newClicks > 0 then newClicks else 0;
      var uniqueKeys := UniqueStringKeys(items);
      UniqueStringsProperties(items);
      unlocked := uniqueKeys;
      response := StatusOk;
    }
  }
}
