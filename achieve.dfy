/**
 * The achievement overview page (`Scripts/achieve.js`): loads the progress from the server or
 * from `localStorage`, marks each listed achievement unlocked or locked and fills in the
 * summary (unlocked count, total, clicks, percentage, storage mode, empty-list message).
 */
module AchieveSummary {
  import opened Wrappers
  import opened Json
  import Achievements

  /** A JSON value JavaScript treats as false. */
  predicate Falsy(v: Json) {
    v.JNull? || v == JBool(false) || v == JInt(0) || v == JFloat(0.0) || v == JString("")
  }

  /**
   * The clicks `sanitizeProgress` gives. For the data `0` the guard `data && data.clicks` is
   * the finite number 0, so the result is `(0).clicks`, which is `undefined`.
   */
  datatype Clicks = Count(value: real) | Undefined

  datatype Progress = Progress(clicks: Clicks, unlocked: seq<Json>)

  /** `sanitizeProgress`: the clicks when they are a finite number, the unlocked list when an array. */
  function SanitizeProgress(data: Json): (r: Progress)
    ensures Field(data, "clicks").Some? && IsFiniteNumber(Field(data, "clicks").value) ==>
      r.clicks == Count(NumberValue(Field(data, "clicks").value))
    ensures (data == JInt(0) || data == JFloat(0.0)) ==> r.clicks == Undefined
    ensures r.clicks == Undefined ==> data == JInt(0) || data == JFloat(0.0)
    ensures r.clicks.Count? && r.clicks.value != 0.0 ==>
      Field(data, "clicks").Some? && IsFiniteNumber(Field(data, "clicks").value)
    ensures Field(data, "unlocked").Some? && Field(data, "unlocked").value.JArray? ==>
      r.unlocked == Field(data, "unlocked").value.items
    ensures !(Field(data, "unlocked").Some? && Field(data, "unlocked").value.JArray?) ==> r.unlocked == []
  {
    // `data && data.clicks`: a falsy `data` is itself the operand of `Number.isFinite`.
    var guard := if Falsy(data) then Some(data) else Field(data, "clicks");
    var clicks :=
      if guard.Some? && IsFiniteNumber(guard.value) then
        (if Falsy(data) then Undefined else Count(NumberValue(guard.value)))
      else Count(0.0);
    var unlocked := if Falsy(data) then None else Field(data, "unlocked");
    Progress(clicks, if unlocked.Some? && unlocked.value.JArray? then unlocked.value.items else [])
  }

  /** `formatNumber(value || 0)` before locale formatting: an undefined count shows as 0. */
  function ShownClicks(c: Clicks): real {
    if c.Undefined? then 0.0 else c.value
  }

  /** `readLocal`: the sanitised entry, or nothing when there is no usable entry. */
  function ReadLocal(entry: Achievements.LocalEntry): (r: Progress)
    ensures !entry.Stored? ==> r == Progress(Count(0.0), [])
  {
    if entry.Stored? then SanitizeProgress(entry.value) else Progress(Count(0.0), [])
  }

  /** What the tracker on other pages writes, this page reads back. */
  lemma ReadsWhatTrackerWrites(p: Achievements.Progress)
    ensures ReadLocal(Achievements.Stored(Achievements.ToJson(p))) == Progress(Count(p.clicks), p.unlocked)
  {
    var members := Achievements.ToJson(p).members;
    assert Get(members, "unlocked") == Some(JArray(p.unlocked));
    assert Get(members, "clicks") == Some(Achievements.NumberJson(p.clicks)) by {
      assert members[..1] == [("clicks", Achievements.NumberJson(p.clicks))];
    }
  }

  datatype LoadResult = LoadResult(data: Progress, mode: Json)

  /**
   * `loadProgress`: over HTTP a fetched body (`None` for a failed request, a non-OK status or
   * a body that is not JSON) gives server mode; everything else reads the local entry.
   */
  function LoadProgress(isFileProtocol: bool, fetched: Option<Json>, local: Achievements.LocalEntry): (r: LoadResult)
    ensures r.mode == JString("server") <==> !isFileProtocol && fetched.Some?
    ensures r.mode != JString("server") ==> r.mode == JString("local") && r.data == ReadLocal(local)
    ensures r.mode == JString("server") ==> r.data == SanitizeProgress(fetched.value)
  {
    if !isFileProtocol && fetched.Some? then LoadResult(SanitizeProgress(fetched.value), JString("server"))
    else LoadResult(ReadLocal(local), JString("local"))
  }

  /** The `achievement:progress` listener's input: given progress if truthy, else the local entry. */
  function EventResult(detail: Json, local: Achievements.LocalEntry): (r: LoadResult)
    ensures Field(detail, "progress").None? || Falsy(Field(detail, "progress").value) ==> r.data == ReadLocal(local)
    ensures Field(detail, "mode").None? || Falsy(Field(detail, "mode").value) ==> r.mode == JString("local")
    ensures Field(detail, "progress").Some? && !Falsy(Field(detail, "progress").value) ==>
      r.data == SanitizeProgress(Field(detail, "progress").value)
    ensures Field(detail, "mode").Some? && !Falsy(Field(detail, "mode").value) ==> r.mode == Field(detail, "mode").value
  {
    var progress := Field(detail, "progress");
    var mode := Field(detail, "mode");
    LoadResult(
      if progress.Some? && !Falsy(progress.value) then SanitizeProgress(progress.value) else ReadLocal(local),
      if mode.Some? && !Falsy(mode.value) then mode.value else JString("local"))
  }

  // ---------------------------------------------------------------- the summary

  /** An item is unlocked when its key is non-empty and in the unlocked set. */
  predicate IsUnlocked(key: string, unlocked: seq<Json>) {
    key != "" && JString(key) in unlocked
  }

  /** How many of the item keys are unlocked. */
  function UnlockedCount(keys: seq<string>, unlocked: seq<Json>): nat {
    if keys == [] then 0
    else UnlockedCount(keys[..|keys| - 1], unlocked) + (if IsUnlocked(keys[|keys| - 1], unlocked) then 1 else 0)
  }

  /** The count lies between 0 and the number of items, and is 0 exactly when none is unlocked. */
  lemma {:induction false} UnlockedCountBounds(keys: seq<string>, unlocked: seq<Json>)
    ensures UnlockedCount(keys, unlocked) <= |keys|
    ensures UnlockedCount(keys, unlocked) == 0 <==> forall i :: 0 <= i < |keys| ==> !IsUnlocked(keys[i], unlocked)
    ensures UnlockedCount(keys, unlocked) == |keys| <==> forall i :: 0 <= i < |keys| ==> IsUnlocked(keys[i], unlocked)
  {
    if keys != [] {
      var init := keys[..|keys| - 1];
      UnlockedCountBounds(init, unlocked);
      assert forall i :: 0 <= i < |init| ==> init[i] == keys[i];
    }
  }

  /**
   * `Math.round(unlockedCount / total * 100)`, or 0 without items, on the exact quotient:
   * rounding half up is `floor(x + 1/2)`, that is `(200 * count + total) / (2 * total)`.
   * The browser rounds the double product instead, which at a few exact half-points lies
   * just below the half: 23 of 40 shows 57 there and 58 here.
   */
  function Percentage(count: nat, total: nat): nat {
    if total > 0 then (200 * count + total) / (2 * total) else 0
  }

  /**
   * The percentage is `100 * count / total` rounded half up: it lies within half a point
   * below and strictly less than half a point above, scaled here by `2 * total`.
   */
  lemma PercentageRounds(count: nat, total: nat)
    requires total > 0
    ensures var r := Percentage(count, total);
      total * (2 * r - 1) <= 200 * count < total * (2 * r + 1)
  {
    var d := 2 * total;
    var q := (200 * count + total) / d;
    var m := (200 * count + total) % d;
    assert 200 * count + total == d * q + m && 0 <= m < d;
    assert total * (2 * q - 1) == d * q - total;
    assert total * (2 * q + 1) == d * q + total;
  }

  lemma MulCancel(t: int, x: int, y: int)
    requires t > 0 && t * x < t * y
    ensures x < y
  {
    assert t * (y - x) == t * y - t * x > 0;
  }

  /** With at most `total` unlocked the percentage lies in [0, 100]; 100 means all are unlocked. */
  lemma PercentageBounds(count: nat, total: nat)
    requires count <= total
    ensures Percentage(count, total) <= 100
    ensures total > 0 ==> (Percentage(count, total) == 100 <==> 200 * count >= 199 * total)
    ensures total > 0 && count == total ==> Percentage(count, total) == 100
    ensures count == 0 ==> Percentage(count, total) == 0
  {
    if total > 0 {
      var r: int := Percentage(count, total);
      PercentageRounds(count, total);
      assert 200 * count <= total * 200;
      MulCancel(total, 2 * r - 1, 201);
      if 200 * count >= 199 * total {
        MulCancel(total, 197, 2 * r + 1);
      }
      if r == 100 {
        assert total * (2 * r - 1) == 199 * total;
      }
      if count == 0 {
        MulCancel(total, 2 * r - 1, 1);
      }
    }
  }

  /** One more unlocked achievement never lowers the percentage. */
  lemma PercentageMonotone(count: nat, total: nat)
    ensures Percentage(count, total) <= Percentage(count + 1, total)
  {
    if total > 0 {
      PercentageRounds(count, total);
      PercentageRounds(count + 1, total);
      MulCancel(total, 2 * (Percentage(count, total) as int) - 1, 2 * Percentage(count + 1, total) + 1);
    }
  }

  /** What `updateUI` writes: each item's state and the summary fields. */
  datatype Summary = Summary(
    itemUnlocked: seq<bool>,
    unlockedCount: nat,
    total: nat,
    clicks: real,
    percentage: nat,
    modeLabel: string,
    emptyHidden: bool)

  function ModeLabel(mode: Json): string {
    if mode == JString("server") then "Synkad" else "Lokal lagring"
  }

  function StatusText(unlocked: bool): string {
    if unlocked then "Upplåst" else "Låst"
  }

  /** The `forEach` over the items: each item's state, and how many are unlocked. */
  method MarkItems(keys: seq<string>, unlocked: seq<Json>) returns (states: seq<bool>, count: nat)
    ensures |states| == |keys| && forall i :: 0 <= i < |keys| ==> (states[i] <==> IsUnlocked(keys[i], unlocked))
    ensures count == UnlockedCount(keys, unlocked)
  {
    states := [];
    count := 0;
    for i := 0 to |keys|
      invariant |states| == i && forall j :: 0 <= j < i ==> (states[j] <==> IsUnlocked(keys[j], unlocked))
      invariant count == UnlockedCount(keys[..i], unlocked)
    {
      var isUnlocked := keys[i] != "" && JString(keys[i]) in unlocked;
      states := states + [isUnlocked];
      assert keys[..i + 1][..i] == keys[..i];
      if isUnlocked {
        count := count + 1;
      }
    }
    assert keys[..|keys|] == keys;
  }

  /**
   * `updateUI`: nothing without items; otherwise each item's state, the count of unlocked
   * items (at most the total), the percentage in [0, 100], the mode label, and the empty
   * message hidden exactly when something is unlocked.
   */
  method UpdateUI(keys: seq<string>, result: LoadResult) returns (summary: Option<Summary>)
    ensures keys == [] <==> summary.None?
    ensures summary.Some? ==>
      var s := summary.value;
      && |s.itemUnlocked| == |keys|
      && (forall i :: 0 <= i < |keys| ==> (s.itemUnlocked[i] <==> IsUnlocked(keys[i], result.data.unlocked)))
      && s.unlockedCount == UnlockedCount(keys, result.data.unlocked) <= s.total == |keys|
      && s.clicks == ShownClicks(result.data.clicks)
      && s.percentage == Percentage(s.unlockedCount, s.total) <= 100
      && s.modeLabel == ModeLabel(result.mode)
      && (s.emptyHidden <==> exists i :: 0 <= i < |keys| && IsUnlocked(keys[i], result.data.unlocked))
  {
    if |keys| == 0 {
      return None;
    }
    var states, count := MarkItems(keys, result.data.unlocked);
    UnlockedCountBounds(keys, result.data.unlocked);
    PercentageBounds(count, |keys|);
    var percentage := Percentage(count, |keys|);
    summary := Some(Summary(states, count, |keys|, ShownClicks(result.data.clicks), percentage,
      ModeLabel(result.mode), count > 0));
  }
}
