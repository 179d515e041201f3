/**
 * Achievement tracking on every page (`Scripts/achievements.js`): a progress store that talks
 * to the development server and falls back, once and for good, to `localStorage`; and the
 * tracker that counts clicks, unlocks achievements by click count, CSS selector or form
 * submission, shows a toast for each and schedules one save per burst of changes.
 *
 * The browser's answers (`fetch`, `sendBeacon`, `localStorage`, `Element.closest`) are
 * parameters of the methods that use them.
 */
module Achievements {
  import opened Wrappers
  import opened JsText
  import opened Json

  datatype Mode = Server | Local

  /**
   * Progress as the page holds it: a click count, which may be any finite JavaScript number,
   * and the unlocked values. Values that come from `JSON.parse` are never non-finite numbers.
   */
  datatype Progress = Progress(clicks: real, unlocked: seq<Json>)

  /** What `localStorage.getItem` and `JSON.parse` give for the progress key. */
  datatype LocalEntry =
    | Missing      // no entry, or the empty string
    | Unreadable   // storage throws, or the text is not JSON
    | Stored(value: Json)

  /**
   * `Number.isFinite(data?.clicks) ? data.clicks : 0` and
   * `Array.isArray(data?.unlocked) ? data.unlocked : []`, shared by `readLocal` and `load`.
   */
  function SanitizeProgress(data: Json): (r: Progress)
    ensures Field(data, "clicks").Some? && IsFiniteNumber(Field(data, "clicks").value) ==>
      r.clicks == NumberValue(Field(data, "clicks").value)
    ensures !(Field(data, "clicks").Some? && IsFiniteNumber(Field(data, "clicks").value)) ==> r.clicks == 0.0
    ensures Field(data, "unlocked").Some? && Field(data, "unlocked").value.JArray? ==>
      r.unlocked == Field(data, "unlocked").value.items
    ensures !(Field(data, "unlocked").Some? && Field(data, "unlocked").value.JArray?) ==> r.unlocked == []
  {
    var clicks := Field(data, "clicks");
    var unlocked := Field(data, "unlocked");
    Progress(
      if clicks.Some? && IsFiniteNumber(clicks.value) then NumberValue(clicks.value) else 0.0,
      if unlocked.Some? && unlocked.value.JArray? then unlocked.value.items else [])
  }

  /** `readLocal`: the sanitised stored progress, or none at all when nothing usable is stored. */
  function ReadLocal(entry: LocalEntry): (r: Progress)
    ensures !entry.Stored? ==> r == Progress(0.0, [])
    ensures entry.Stored? ==> r == SanitizeProgress(entry.value)
  {
    if entry.Stored? then SanitizeProgress(entry.value) else Progress(0.0, [])
  }

  /** A finite number as `JSON.stringify` writes it and `JSON.parse` reads it back. */
  function NumberJson(x: real): (r: Json)
    ensures IsFiniteNumber(r) && NumberValue(r) == x
  {
    if x == x.Floor as real then JInt(x.Floor) else JFloat(x)
  }

  /** `JSON.stringify(progress)`, as the value `JSON.parse` gives back. */
  function ToJson(p: Progress): Json {
    JObject([("clicks", NumberJson(p.clicks)), ("unlocked", JArray(p.unlocked))])
  }

  /** What `writeLocal` stores, `readLocal` reads back unchanged. */
  lemma ReadLocalOfWritten(p: Progress)
    ensures ReadLocal(Stored(ToJson(p))) == p
  {
    var members := ToJson(p).members;
    assert Get(members, "unlocked") == Some(JArray(p.unlocked));
    assert Get(members, "clicks") == Some(NumberJson(p.clicks)) by {
      assert members[..1] == [("clicks", NumberJson(p.clicks))];
    }
  }

  /** `createProgressStore`: the storage mode, the local entry and whether beacons are supported. */
  class ProgressStore {
    var mode: Mode
    var local: LocalEntry
    const isFileProtocol: bool
    const supportsBeacon: bool

    /** A page opened from a file never talks to the server. */
    predicate Valid()
      reads this
    {
      isFileProtocol ==> mode == Local
    }

    constructor (isFileProtocol: bool, supportsBeacon: bool, local: LocalEntry)
      ensures Valid()
      ensures mode == (if isFileProtocol then Local else Server)
      ensures this.local == local && this.isFileProtocol == isFileProtocol && this.supportsBeacon == supportsBeacon
    {
      this.isFileProtocol := isFileProtocol;
      this.supportsBeacon := supportsBeacon;
      this.local := local;
      mode := if isFileProtocol then Local else Server;
    }

    /** `writeLocal`: stores the progress; a failing `setItem` (`storageOk` false) is ignored. */
    method WriteLocal(p: Progress, storageOk: bool)
      modifies this
      ensures mode == old(mode)
      ensures local == if storageOk then Stored(ToJson(p)) else old(local)
    {
      if storageOk {
        local := Stored(ToJson(p));
      }
    }

    /**
     * `load`: in server mode the fetched data (`None` for a network error, a non-OK status or a
     * body that is not JSON) sanitised, or else a switch to local mode; in local mode the
     * local entry.
     */
    method Load(fetched: Option<Json>) returns (p: Progress)
      requires Valid()
      modifies this
      ensures Valid() && local == old(local)
      ensures old(mode) == Server && fetched.Some? ==> mode == Server && p == SanitizeProgress(fetched.value)
      ensures old(mode) == Server && fetched.None? ==> mode == Local && p == ReadLocal(local)
      ensures old(mode) == Local ==> mode == Local && p == ReadLocal(local)
    {
      if mode == Server {
        if fetched.Some? {
          return SanitizeProgress(fetched.value);
        }
        mode := Local;
      }
      p := ReadLocal(local);
    }

    /**
     * One queued `save`, when its turn comes: in server mode a successful POST is all; a
     * failed one switches to local mode, and local mode writes the entry.
     */
    method Save(p: Progress, postOk: bool, storageOk: bool) returns (posted: bool)
      requires Valid()
      modifies this
      ensures Valid()
      ensures posted <==> old(mode) == Server && postOk
      ensures mode == if posted then Server else Local
      ensures posted ==> local == old(local)
      ensures !posted ==> local == if storageOk then Stored(ToJson(p)) else old(local)
    {
      if mode == Server {
        if postOk {
          return true;
        }
        mode := Local;
      }
      posted := false;
      WriteLocal(p, storageOk);
    }

    /**
     * `flush` on page unload: a beacon in server mode when beacons are supported and sending
     * does not throw; otherwise a local write. The mode does not change.
     */
    method Flush(p: Progress, beaconThrows: bool, storageOk: bool) returns (beaconSent: bool)
      requires Valid()
      modifies this
      ensures Valid() && mode == old(mode)
      ensures beaconSent <==> mode == Server && supportsBeacon && !beaconThrows
      ensures beaconSent ==> local == old(local)
      ensures !beaconSent ==> local == if storageOk then Stored(ToJson(p)) else old(local)
    {
      if mode == Server && supportsBeacon && !beaconThrows {
        return true;
      }
      beaconSent := false;
      WriteLocal(p, storageOk);
    }
  }

  /** Once local, a store stays local whatever the server answers afterwards. */
  method LocalIsFinal(store: ProgressStore, fetched: Option<Json>, p: Progress, postOk: bool, beaconThrows: bool, storageOk: bool)
    requires store.Valid() && store.mode == Local
    modifies store
    ensures store.mode == Local
  {
    var _ := store.Load(fetched);
    var _ := store.Save(p, postOk, storageOk);
    var _ := store.Flush(p, beaconThrows, storageOk);
  }

  // ---------------------------------------------------------------- keys

  /**
   * The `data-` attributes of an achievement element; `None` where the attribute is absent.
   */
  datatype ItemData = ItemData(
    achievementId: Option<string>,
    triggerSubmit: Option<string>,
    triggerSelector: Option<string>,
    triggerClick: Option<string>,
    duration: Option<string>)

  /** A JavaScript string attribute is truthy when present and non-empty. */
  predicate Truthy(a: Option<string>) {
    a.Some? && a.value != ""
  }

  /** `attribute || fallback`. */
  function OrElse(a: Option<string>, fallback: string): string {
    if Truthy(a) then a.value else fallback
  }

  /**
   * `getKeyForItem`: the first available of the achievement id, the submit selector, the
   * element selector, the parsed click trigger, the raw click attribute and the index.
   */
  function KeyForItem(item: ItemData, trigger: Option<int>, index: nat): string {
    if Truthy(item.achievementId) then item.achievementId.value
    else if Truthy(item.triggerSubmit) then "submit-" + item.triggerSubmit.value
    else if Truthy(item.triggerSelector) then "selector-" + item.triggerSelector.value
    else if trigger.Some? then "trigger-" + IntToString(trigger.value)
    else if Truthy(item.triggerClick) then "click-" + item.triggerClick.value
    else "index-" + IntToString(index)
  }

  /** Neither an id nor a submit or selector trigger is set. */
  predicate NoKeySource(item: ItemData) {
    !Truthy(item.achievementId) && !Truthy(item.triggerSubmit) && !Truthy(item.triggerSelector)
  }

  /**
   * The key sources in their order: an id always wins; then a submit and a selector trigger;
   * without those three a parsed click trigger names the key, then the raw click attribute,
   * and an item with none of them is told apart by its index.
   */
  lemma KeyForItemPriority(item: ItemData, trigger: Option<int>, index: nat)
    ensures Truthy(item.achievementId) ==> KeyForItem(item, trigger, index) == item.achievementId.value
    ensures !Truthy(item.achievementId) && Truthy(item.triggerSubmit) ==>
      KeyForItem(item, trigger, index)[..7] == "submit-"
    ensures !Truthy(item.achievementId) && !Truthy(item.triggerSubmit) && Truthy(item.triggerSelector) ==>
      KeyForItem(item, trigger, index)[..9] == "selector-"
    ensures NoKeySource(item) && trigger.Some? ==>
      KeyForItem(item, trigger, index)[..8] == "trigger-"
    ensures NoKeySource(item) && trigger.None? && Truthy(item.triggerClick) ==>
      KeyForItem(item, trigger, index) == "click-" + item.triggerClick.value
    ensures NoKeySource(item) && trigger.None? && !Truthy(item.triggerClick) ==>
      KeyForItem(item, trigger, index) == "index-" + IntToString(index)
  {
  }

  lemma KeysOfPlainItemsDiffer(item: ItemData, i: nat, j: nat)
    requires !Truthy(item.achievementId) && !Truthy(item.triggerSubmit) && !Truthy(item.triggerSelector)
    requires !Truthy(item.triggerClick)
    requires i != j
    ensures KeyForItem(item, None, i) != KeyForItem(item, None, j)
  {
    IntToStringInjective(i, j);
    assert ("index-" + IntToString(i))[6..] == IntToString(i);
    assert ("index-" + IntToString(j))[6..] == IntToString(j);
  }

  lemma KeysOfTriggersDiffer(item: ItemData, s: int, t: int, index: nat)
    requires !Truthy(item.achievementId) && !Truthy(item.triggerSubmit) && !Truthy(item.triggerSelector)
    requires s != t
    ensures KeyForItem(item, Some(s), index) != KeyForItem(item, Some(t), index)
  {
    IntToStringInjective(s, t);
    assert ("trigger-" + IntToString(s))[8..] == IntToString(s);
    assert ("trigger-" + IntToString(t))[8..] == IntToString(t);
  }

  /** `sanitizeSelector`: a missing attribute is empty, a present one is trimmed. */
  function SanitizeSelector(selector: Option<string>): (r: string)
    ensures selector.None? ==> r == ""
    ensures Trim(r) == r
    ensures selector.Some? ==> r == Trim(selector.value)
  {
    if selector.None? then "" else
      TrimIdempotent(selector.value);
      Trim(selector.value)
  }

  /** `Number.parseInt(item.dataset.triggerClick || '', 10)`. */
  function ClickTrigger(item: ItemData): Option<int> {
    ParseInt(OrElse(item.triggerClick, ""))
  }

  /** How long a toast stays: `Number.parseInt(item.dataset.duration || '10000', 10)`. */
  function Duration(item: ItemData): Option<int> {
    ParseInt(OrElse(item.duration, "10000"))
  }

  function Durations(items: seq<ItemData>): seq<Option<int>> {
    seq(|items|, i requires 0 <= i < |items| => Duration(items[i]))
  }

  datatype ClickEntry = ClickEntry(index: nat, trigger: int, key: string)
  datatype SelectorEntry = SelectorEntry(index: nat, selector: string, key: string)

  /** Each item's parsed click trigger and the key `getKeyForItem` gives it with that trigger. */
  function ClickTriggers(items: seq<ItemData>): seq<Option<int>>
  {
    seq(|items|, i requires 0 <= i < |items| => ClickTrigger(items[i]))
  }

  function ClickKeys(items: seq<ItemData>): seq<string>
  {
    seq(|items|, i requires 0 <= i < |items| => KeyForItem(items[i], ClickTrigger(items[i]), i))
  }

  /** Each item's sanitised selector (or submit selector) and its key without a trigger. */
  function Selectors(items: seq<ItemData>, kind: SelectorKind): seq<string>
  {
    seq(|items|, i requires 0 <= i < |items| => SelectorOf(items[i], kind))
  }

  function PlainKeys(items: seq<ItemData>): seq<string>
  {
    seq(|items|, i requires 0 <= i < |items| => KeyForItem(items[i], None, i))
  }

  /** The `clickAchievements` reduction over the first `n` items. */
  function ClickEntries(triggers: seq<Option<int>>, keys: seq<string>, n: nat): seq<ClickEntry>
    requires n <= |triggers| == |keys|
  {
    if n == 0 then []
    else
      var prev := ClickEntries(triggers, keys, n - 1);
      if triggers[n - 1].None? then prev
      else prev + [ClickEntry(n - 1, triggers[n - 1].value, keys[n - 1])]
  }

  /**
   * The click achievements are exactly the items whose click attribute parses as an integer,
   * each with that integer as its trigger and its own key.
   */
  lemma {:induction false} ClickEntriesExact(triggers: seq<Option<int>>, keys: seq<string>, n: nat)
    requires n <= |triggers| == |keys|
    ensures forall e :: e in ClickEntries(triggers, keys, n) ==>
      e.index < n && triggers[e.index] == Some(e.trigger) && e.key == keys[e.index]
    ensures forall i :: 0 <= i < n && triggers[i].Some? ==>
      exists e :: e in ClickEntries(triggers, keys, n) && e.index == i
  {
    if n > 0 {
      ClickEntriesExact(triggers, keys, n - 1);
      var prev := ClickEntries(triggers, keys, n - 1);
      var r := ClickEntries(triggers, keys, n);
      if triggers[n - 1].Some? {
        var last := ClickEntry(n - 1, triggers[n - 1].value, keys[n - 1]);
        assert r == prev + [last];
        assert last in r;
      }
    }
  }

  datatype SelectorKind = BySelector | BySubmit

  function SelectorOf(item: ItemData, kind: SelectorKind): string {
    SanitizeSelector(if kind == BySelector then item.triggerSelector else item.triggerSubmit)
  }

  /** The `selectorAchievements` or `submitAchievements` reduction over the first `n` items. */
  function SelectorEntries(selectors: seq<string>, keys: seq<string>, n: nat): seq<SelectorEntry>
    requires n <= |selectors| == |keys|
  {
    if n == 0 then []
    else
      var prev := SelectorEntries(selectors, keys, n - 1);
      if selectors[n - 1] == "" then prev
      else prev + [SelectorEntry(n - 1, selectors[n - 1], keys[n - 1])]
  }

  /**
   * The selector (or submit) achievements are exactly the items with a non-blank trimmed
   * selector, each with that selector and its own key.
   */
  lemma {:induction false} SelectorEntriesExact(selectors: seq<string>, keys: seq<string>, n: nat)
    requires n <= |selectors| == |keys|
    ensures forall e :: e in SelectorEntries(selectors, keys, n) ==>
      e.index < n && e.selector == selectors[e.index] != "" && e.key == keys[e.index]
    ensures forall i :: 0 <= i < n && selectors[i] != "" ==>
      exists e :: e in SelectorEntries(selectors, keys, n) && e.index == i
  {
    if n > 0 {
      SelectorEntriesExact(selectors, keys, n - 1);
      var prev := SelectorEntries(selectors, keys, n - 1);
      var r := SelectorEntries(selectors, keys, n);
      if selectors[n - 1] != "" {
        var last := SelectorEntry(n - 1, selectors[n - 1], keys[n - 1]);
        assert r == prev + [last];
        assert last in r;
      }
    }
  }

  /** The three lists `achievementToggle` builds from the items. */
  datatype AchievementLists = AchievementLists(
    clickEntries: seq<ClickEntry>, selectorEntries: seq<SelectorEntry>, submitEntries: seq<SelectorEntry>)

  /** The lists for `items`; every entry refers to one of the items. */
  function ListsFor(items: seq<ItemData>): (r: AchievementLists)
    ensures forall e :: e in r.clickEntries ==> e.index < |items|
    ensures forall e :: e in r.selectorEntries ==> e.index < |items|
    ensures forall e :: e in r.submitEntries ==> e.index < |items|
  {
    ClickEntriesExact(ClickTriggers(items), ClickKeys(items), |items|);
    SelectorEntriesExact(Selectors(items, BySelector), PlainKeys(items), |items|);
    SelectorEntriesExact(Selectors(items, BySubmit), PlainKeys(items), |items|);
    AchievementLists(
      ClickEntries(ClickTriggers(items), ClickKeys(items), |items|),
      SelectorEntries(Selectors(items, BySelector), PlainKeys(items), |items|),
      SelectorEntries(Selectors(items, BySubmit), PlainKeys(items), |items|))
  }

  // ---------------------------------------------------------------- the unlocked set

  predicate DistinctValues(xs: seq<Json>) {
    forall a, b :: 0 <= a < b < |xs| ==> xs[a] != xs[b]
  }

  /** `set.add(v)`: insertion order is kept and a present value is not added again. */
  function Add(xs: seq<Json>, v: Json): (r: seq<Json>)
    ensures DistinctValues(xs) ==> DistinctValues(r)
    ensures forall w :: w in r <==> w in xs || w == v
    ensures |r| >= |xs| && r[..|xs|] == xs
  {
    if v in xs then xs else xs + [v]
  }

  /** `new Set(values)`: the values in first-occurrence order, none twice. */
  function ToSet(values: seq<Json>): (r: seq<Json>)
    ensures DistinctValues(r)
    ensures forall w :: w in r <==> w in values
  {
    if values == [] then [] else Add(ToSet(values[..|values| - 1]), values[|values| - 1])
  }

  /** The toast keys with every occurrence of `key` removed, in their old order: `toast.remove()`. */
  function RemoveKey(keys: seq<string>, key: string): (r: seq<string>)
    ensures forall k :: k in r <==> k in keys && k != key
  {
    if keys == [] then []
    else if keys[0] == key then RemoveKey(keys[1..], key)
    else [keys[0]] + RemoveKey(keys[1..], key)
  }

  predicate ClickUnlocks(e: ClickEntry, clicks: real) {
    e.trigger as real <= clicks
  }

  /** The state of `achievementToggle` once the progress has loaded. */
  class AchievementTracker {
    const store: ProgressStore
    const items: seq<ItemData>
    /** Each item's toast duration, parsed once. */
    const durations: seq<Option<int>>
    const clickAchievements: seq<ClickEntry>
    const selectorAchievements: seq<SelectorEntry>
    const submitAchievements: seq<SelectorEntry>
    var clicks: real
    var unlocked: seq<Json>
    var toasts: seq<string>
    var persistQueued: bool
    /** Microtasks queued by `persist` that have not run yet. */
    ghost var scheduledSaves: nat

    /**
     * The unlocked values are a set, every toast on screen belongs to an unlocked key, and a
     * save is scheduled exactly while `persistQueued` is set, never twice.
     */
    ghost predicate Valid()
      reads this, store
    {
      && store.Valid()
      && |durations| == |items|
      && (forall e :: e in clickAchievements ==> e.index < |items|)
      && (forall e :: e in selectorAchievements ==> e.index < |items|)
      && (forall e :: e in submitAchievements ==> e.index < |items|)
      && DistinctValues(unlocked)
      && (forall k :: k in toasts ==> JString(k) in unlocked)
      && scheduledSaves == (if persistQueued then 1 else 0)
    }

    /** The payload `toPayload` builds. */
    function ToPayload(): Progress
      reads this
    {
      Progress(clicks, unlocked)
    }

    /**
     * The set-up part of `achievementToggle`: the loaded clicks and unlocked set, the three
     * achievement lists and an empty toast host. (`Start` runs the first unlock check.)
     */
    constructor (store: ProgressStore, items: seq<ItemData>, progress: Progress)
      requires store.Valid()
      ensures Valid()
      ensures this.store == store && this.items == items && durations == Durations(items)
      ensures clickAchievements == ListsFor(items).clickEntries
      ensures selectorAchievements == ListsFor(items).selectorEntries
      ensures submitAchievements == ListsFor(items).submitEntries
      ensures clicks == progress.clicks && unlocked == ToSet(progress.unlocked)
      ensures toasts == [] && !persistQueued
    {
      this.store := store;
      this.items := items;
      durations := Durations(items);
      var lists := ListsFor(items);
      clickAchievements := lists.clickEntries;
      selectorAchievements := lists.selectorEntries;
      submitAchievements := lists.submitEntries;
      clicks := progress.clicks;
      unlocked := ToSet(progress.unlocked);
      toasts := [];
      persistQueued := false;
      scheduledSaves := 0;
    }

    /** `persist`: queues one save unless one is already queued. */
    method Persist()
      requires Valid()
      modifies this
      ensures Valid() && persistQueued && scheduledSaves == 1
      ensures old(persistQueued) ==> scheduledSaves == old(scheduledSaves)
      ensures clicks == old(clicks) && unlocked == old(unlocked) && toasts == old(toasts)
    {
      if persistQueued {
        return;
      }
      persistQueued := true;
      scheduledSaves := scheduledSaves + 1;
    }

    /** The queued microtask: clears the flag and saves the progress as it is now. */
    method RunPersistMicrotask(postOk: bool, storageOk: bool) returns (posted: bool)
      requires Valid() && persistQueued
      modifies this, store
      ensures Valid() && !persistQueued && scheduledSaves == 0
      ensures clicks == old(clicks) && unlocked == old(unlocked) && toasts == old(toasts)
      ensures posted <==> old(store.mode) == Server && postOk
      ensures !posted ==> store.local == if storageOk then Stored(ToJson(ToPayload())) else old(store.local)
    {
      persistQueued := false;
      scheduledSaves := 0;
      posted := store.Save(ToPayload(), postOk, storageOk);
    }

    /** The `beforeunload` listener. */
    method BeforeUnload(beaconThrows: bool, storageOk: bool) returns (beaconSent: bool)
      requires Valid()
      modifies store
      ensures Valid()
      ensures beaconSent <==> store.mode == Server && store.supportsBeacon && !beaconThrows
      ensures !beaconSent ==> store.local == if storageOk then Stored(ToJson(ToPayload())) else old(store.local)
    {
      beaconSent := store.Flush(ToPayload(), beaconThrows, storageOk);
    }

    /**
     * `showAchievement`: nothing when a toast for the key is on screen; otherwise a toast,
     * the key added to the unlocked set and a save queued. `expires` tells whether a timer
     * will remove the toast (a positive duration).
     */
    method ShowAchievement(index: nat, key: string) returns (expires: bool)
      requires Valid() && index < |items|
      modifies this
      ensures Valid()
      ensures clicks == old(clicks) && JString(key) in unlocked
      ensures key in old(toasts) ==>
        unlocked == old(unlocked) && toasts == old(toasts) && persistQueued == old(persistQueued) && !expires
      ensures key !in old(toasts) ==>
        unlocked == Add(old(unlocked), JString(key)) && toasts == old(toasts) + [key] && persistQueued
        && (expires <==> durations[index].Some? && durations[index].value > 0)
    {
      if key in toasts {
        return false;
      }
      var duration := durations[index];
      expires := duration.Some? && duration.value > 0;
      unlocked := Add(unlocked, JString(key));
      toasts := toasts + [key];
      Persist();
    }

    /** The toast timer: the toast leaves the host; the key stays unlocked. */
    method ToastExpired(key: string)
      requires Valid()
      modifies this
      ensures Valid()
      ensures toasts == RemoveKey(old(toasts), key) && key !in toasts
      ensures clicks == old(clicks) && unlocked == old(unlocked) && persistQueued == old(persistQueued)
    {
      toasts := RemoveKey(toasts, key);
    }

    /**
     * `maybeUnlockAchievements`: afterwards every click achievement whose trigger the click
     * count has reached is unlocked, nothing unlocked before is lost, and nothing else is added.
     */
    method MaybeUnlockAchievements()
      requires Valid()
      modifies this
      ensures Valid() && clicks == old(clicks) && (old(persistQueued) ==> persistQueued)
      ensures |unlocked| >= |old(unlocked)| && unlocked[..|old(unlocked)|] == old(unlocked)
      ensures forall e :: e in clickAchievements && ClickUnlocks(e, clicks) ==> JString(e.key) in unlocked
      ensures forall v :: v in unlocked ==>
        v in old(unlocked) || exists e :: e in clickAchievements && ClickUnlocks(e, clicks) && v == JString(e.key)
    {
      for i := 0 to |clickAchievements|
        invariant Valid() && clicks == old(clicks) && (old(persistQueued) ==> persistQueued)
        invariant |unlocked| >= |old(unlocked)| && unlocked[..|old(unlocked)|] == old(unlocked)
        invariant forall j :: 0 <= j < i && ClickUnlocks(clickAchievements[j], clicks) ==>
          JString(clickAchievements[j].key) in unlocked
        invariant forall v :: v in unlocked ==>
          v in old(unlocked) || exists e :: e in clickAchievements && ClickUnlocks(e, clicks) && v == JString(e.key)
      {
        var e := clickAchievements[i];
        if JString(e.key) in unlocked || !ClickUnlocks(e, clicks) {
          continue;
        }
        ghost var before := unlocked;
        var _ := ShowAchievement(e.index, e.key);
        assert unlocked == Add(before, JString(e.key));
        assert before[..|old(unlocked)|] == old(unlocked);
        assert unlocked[..|before|] == before;
        assert unlocked[..|old(unlocked)|] == before[..|old(unlocked)|];
      }
    }

    /**
     * The first unlock check, right after set-up: every click achievement the loaded count has
     * reached is unlocked, the loaded keys stay first, and nothing else is added.
     */
    method Start()
      requires Valid()
      modifies this
      ensures Valid() && clicks == old(clicks)
      ensures forall e :: e in clickAchievements && ClickUnlocks(e, clicks) ==> JString(e.key) in unlocked
      ensures |unlocked| >= |old(unlocked)| && unlocked[..|old(unlocked)|] == old(unlocked)
      ensures forall v :: v in unlocked ==>
        v in old(unlocked) || exists e :: e in clickAchievements && ClickUnlocks(e, clicks) && v == JString(e.key)
    {
      MaybeUnlockAchievements();
    }

    /**
     * The document `click` listener: one more click, a save queued and the unlock check, which
     * keeps every unlocked key and adds exactly the click achievements the new count reaches.
     */
    method DocumentClick()
      requires Valid()
      modifies this
      ensures Valid() && clicks == old(clicks) + 1.0 && persistQueued
      ensures |unlocked| >= |old(unlocked)| && unlocked[..|old(unlocked)|] == old(unlocked)
      ensures forall e :: e in clickAchievements && ClickUnlocks(e, clicks) ==> JString(e.key) in unlocked
      ensures forall v :: v in unlocked ==>
        v in old(unlocked) || exists e :: e in clickAchievements && ClickUnlocks(e, clicks) && v == JString(e.key)
    {
      clicks := clicks + 1.0;
      Persist();
      MaybeUnlockAchievements();
    }

    /**
     * `tryUnlockSelector` and `handleFormSubmit`: for an element target, every not yet unlocked
     * entry whose selector `closest` matches (`matching` holds those selectors) is unlocked;
     * a target that is not an element changes nothing.
     */
    method UnlockBySelector(kind: SelectorKind, isElement: bool, matching: set<string>)
      requires Valid()
      modifies this
      ensures Valid() && clicks == old(clicks)
      ensures !isElement ==> unlocked == old(unlocked)
      ensures |unlocked| >= |old(unlocked)| && unlocked[..|old(unlocked)|] == old(unlocked)
      ensures isElement ==> forall e :: e in Entries(kind) && e.selector in matching ==> JString(e.key) in unlocked
      ensures forall v :: v in unlocked ==>
        v in old(unlocked) || exists e :: e in Entries(kind) && e.selector in matching && v == JString(e.key)
    {
      if !isElement {
        return;
      }
      var entries := Entries(kind);
      for i := 0 to |entries|
        invariant Valid() && clicks == old(clicks)
        invariant |unlocked| >= |old(unlocked)| && unlocked[..|old(unlocked)|] == old(unlocked)
        invariant forall j :: 0 <= j < i && entries[j].selector in matching ==> JString(entries[j].key) in unlocked
        invariant forall v :: v in unlocked ==>
          v in old(unlocked) || exists e :: e in entries && e.selector in matching && v == JString(e.key)
      {
        var e := entries[i];
        if JString(e.key) in unlocked || e.selector !in matching {
          continue;
        }
        ghost var before := unlocked;
        var _ := ShowAchievement(e.index, e.key);
        assert unlocked[..|before|] == before;
        assert unlocked[..|old(unlocked)|] == before[..|old(unlocked)|];
      }
    }

    function Entries(kind: SelectorKind): (r: seq<SelectorEntry>)
      reads this
    {
      if kind == BySelector then selectorAchievements else submitAchievements
    }
  }

  /** The progress `load` gives: the sanitised fetched data in server mode, else the local entry. */
  function Loaded(mode: Mode, local: LocalEntry, fetched: Option<Json>): Progress {
    if mode == Server && fetched.Some? then SanitizeProgress(fetched.value) else ReadLocal(local)
  }

  /**
   * `achievementToggle`: nothing without achievement items; otherwise the progress is loaded,
   * the tracker set up with its clicks and unlocked keys, and the click achievements already
   * earned are unlocked after the loaded keys, with nothing else added.
   */
  method AchievementToggle(store: ProgressStore, items: seq<ItemData>, fetched: Option<Json>)
    returns (tracker: Option<AchievementTracker>)
    requires store.Valid()
    modifies store
    ensures items == [] ==> tracker.None? && store.mode == old(store.mode)
    ensures items != [] ==> tracker.Some? && fresh(tracker.value)
    ensures items != [] ==> store.mode == if old(store.mode) == Server && fetched.Some? then Server else Local
    ensures store.local == old(store.local)
    ensures tracker.Some? ==>
      var t := tracker.value;
      var loaded := ToSet(Loaded(old(store.mode), old(store.local), fetched).unlocked);
      && t.Valid() && t.store == store && t.items == items
      && t.clickAchievements == ListsFor(items).clickEntries
      && t.selectorAchievements == ListsFor(items).selectorEntries
      && t.submitAchievements == ListsFor(items).submitEntries
      && t.clicks == Loaded(old(store.mode), old(store.local), fetched).clicks
      && |t.unlocked| >= |loaded| && t.unlocked[..|loaded|] == loaded
      && (forall e :: e in t.clickAchievements && ClickUnlocks(e, t.clicks) ==> JString(e.key) in t.unlocked)
      && (forall v :: v in t.unlocked ==>
            v in loaded || exists e :: e in t.clickAchievements && ClickUnlocks(e, t.clicks) && v == JString(e.key))
  {
    if items == [] {
      return None;
    }
    var progress := store.Load(fetched);
    var t := new AchievementTracker(store, items, progress);
    t.Start();
    tracker := Some(t);
  }
}
