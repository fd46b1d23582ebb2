/** The advertisement configuration and its cache (app/services/advertisement.py). */
module AdConfig {
  import opened Wrappers
  import opened Sorting

  const CACHE_TTL: int := 300 * SECOND

  // ---------- rows ----------

  datatype Creative = Creative(id: int, enabled: bool, start: Option<int>, end: Option<int>,
                               platforms: seq<string>, priority: int, content: string)

  /** A placement joined with its creative. */
  datatype Row = Row(slot: string, sortOrder: int, creative: Creative)

  /** `stamps` are the updated_at and created_at columns the version is taken from. */
  datatype Rows = Rows(placed: seq<Row>, stamps: seq<int>)

  /** The unique constraint on (slot_code, creative_id), and one row per creative. */
  ghost predicate RowsOk(placed: seq<Row>) {
    forall i, j :: 0 <= i < j < |placed| ==> placed[i].slot != placed[j].slot || placed[i].creative.id != placed[j].creative.id
  }

  datatype Item = Item(id: int, content: string, priority: int, sortOrder: int)

  // ---------- the active creatives ----------

  predicate OnPlatform(c: Creative, platform: string) {
    platform in if c.platforms == [] then ["miniapp"] else c.platforms
  }

  predicate Active(c: Creative, platform: string, now: int) {
    && c.enabled
    && (c.start.Some? ==> c.start.value <= now)
    && (c.end.Some? ==> now <= c.end.value)
    && OnPlatform(c, platform)
  }

  function ItemOf(r: Row): Item {
    Item(r.creative.id, r.creative.content, r.creative.priority, r.sortOrder)
  }

  function Shown(placed: seq<Row>, slot: string, platform: string, now: int): seq<Item> {
    if placed == [] then []
    else
      var last := placed[|placed| - 1];
      Shown(placed[..|placed| - 1], slot, platform, now) +
      if last.slot == slot && Active(last.creative, platform, now) then [ItemOf(last)] else []
  }

  /** The sort key: priority, sort order, creative. */
  predicate Precedes(a: Item, b: Item) {
    if a.priority != b.priority then a.priority < b.priority
    else if a.sortOrder != b.sortOrder then a.sortOrder < b.sortOrder
    else a.id <= b.id
  }

  type Payload = map<string, seq<Item>>

  function ActiveBySlot(placed: seq<Row>, slots: seq<string>, platform: string, now: int): Payload {
    map slot | slot in slots :: Sort(Precedes, Shown(placed, slot, platform, now))
  }

  /** The rows that pass every filter, slot by slot, in the order the query returned them. */
  method CollectActive(placed: seq<Row>, slots: seq<string>, platform: string, now: int) returns (payload: Payload)
    ensures payload == map slot | slot in slots :: Shown(placed, slot, platform, now)
  {
    payload := map slot | slot in slots :: [];
    for i := 0 to |placed|
      invariant forall slot :: slot in payload <==> slot in slots
      invariant forall slot :: slot in payload ==> payload[slot] == Shown(placed[..i], slot, platform, now)
    {
      assert placed[..i + 1][..i] == placed[..i];
      var r := placed[i];
      var c := r.creative;
      // the query's own condition
      if r.slot !in slots {
        continue;
      }
      if !c.enabled {
        continue;
      }
      if c.start.Some? && c.start.value > now {
        continue;
      }
      if c.end.Some? && c.end.value < now {
        continue;
      }
      if !OnPlatform(c, platform) {
        continue;
      }
      payload := payload[r.slot := payload[r.slot] + [ItemOf(r)]];
    }
    assert placed[..|placed|] == placed;
  }

  method LoadActiveCreatives(placed: seq<Row>, slots: seq<string>, platform: string, now: int) returns (payload: Payload)
    ensures payload == ActiveBySlot(placed, slots, platform, now)
  {
    hide Shown;
    payload := CollectActive(placed, slots, platform, now);
    var unsorted, todo := payload, payload.Keys;
    while todo != {}
      invariant todo <= unsorted.Keys == payload.Keys
      invariant forall slot :: slot in unsorted ==>
        payload[slot] == if slot in todo then unsorted[slot] else Sort(Precedes, unsorted[slot])
      decreases todo
    {
      var slot := AnyOf(todo);
      todo := todo - {slot};
      payload := payload[slot := Sort(Precedes, payload[slot])];
    }
    assert payload == ActiveBySlot(placed, slots, platform, now);
  }

  // ---------- version and next change ----------

  /** Start and end times of the creatives placed in one of the slots. */
  function Instants(placed: seq<Row>, slots: seq<string>): seq<int> {
    if placed == [] then []
    else
      var last := placed[|placed| - 1];
      Instants(placed[..|placed| - 1], slots) +
      if last.slot in slots then Times(last.creative) else []
  }

  function Times(c: Creative): seq<int> {
    (if c.start.Some? then [c.start.value] else []) + (if c.end.Some? then [c.end.value] else [])
  }

  function UpTo(xs: seq<int>, now: int): seq<int> {
    if xs == [] then [] else UpTo(xs[..|xs| - 1], now) + if xs[|xs| - 1] <= now then [xs[|xs| - 1]] else []
  }

  function Greatest(xs: seq<int>): (r: Option<int>)
    ensures r.None? <==> xs == []
    ensures r.Some? ==> r.value in xs && forall x :: x in xs ==> x <= r.value
  {
    if xs == [] then None
    else
      var init, last := Greatest(xs[..|xs| - 1]), xs[|xs| - 1];
      assert xs == xs[..|xs| - 1] + [last];
      Some(if init.Some? && init.value > last then init.value else last)
  }

  /** The least instant later than `now`. */
  function NextAfter(xs: seq<int>, now: int): (r: Option<int>)
    ensures r.Some? ==> r.value in xs && now < r.value
    ensures forall x :: x in xs && now < x ==> r.Some? && r.value <= x
  {
    if xs == [] then None
    else
      var init, last := NextAfter(xs[..|xs| - 1], now), xs[|xs| - 1];
      assert xs == xs[..|xs| - 1] + [last];
      if last > now && (init.None? || last < init.value) then Some(last) else init
  }

  /** int() of a timestamp in seconds truncates toward zero. */
  function WholeSeconds(t: int): int {
    if t >= 0 then t / SECOND else -((-t) / SECOND)
  }

  function Version(rows: Rows, slots: seq<string>, now: int): int {
    var latest := Greatest(rows.stamps + UpTo(Instants(rows.placed, slots), now));
    if latest.None? then 0 else WholeSeconds(latest.value)
  }

  function NextChange(rows: Rows, slots: seq<string>, now: int): Option<int> {
    NextAfter(Instants(rows.placed, slots), now)
  }

  // ---------- one call ----------

  /**
   The instants of one call: when it is made, when it compares with the next change,
   when it takes the version and when it filters.
   */
  datatype Clock = Clock(asked: int, checked: int, versioned: int, filtered: int)

  /** `versioned` and `filtered` are kept for the proofs; the program does not store them. */
  datatype Entry = Entry(created: int, version: int, payload: Payload, next: Option<int>, versioned: int, filtered: int)

  datatype Reply = Reply(version: int, slots: Payload)

  function Join(slots: seq<string>): string
    requires slots != []
  {
    if |slots| == 1 then slots[0] else slots[0] + [','] + Join(slots[1..])
  }

  function Key(slots: seq<string>, platform: string): string
    requires slots != []
  {
    platform + [':'] + Join(slots)
  }

  /** The payload from scratch, with the filter applied at one instant and the version taken at another. */
  function Contents(rows: Rows, slots: seq<string>, platform: string, version: int, filtered: int): Payload {
    if version == 0 then map slot | slot in slots :: [] else ActiveBySlot(rows.placed, slots, platform, filtered)
  }

  function Computed(rows: Rows, slots: seq<string>, platform: string, c: Clock): Entry {
    var version := Version(rows, slots, c.versioned);
    Entry(c.asked, version, Contents(rows, slots, platform, version, c.filtered),
          NextChange(rows, slots, c.versioned), c.versioned, c.filtered)
  }

  /** A client that already has the version gets no slots. */
  function Answer(current: int, version: int, payload: Payload): Reply {
    Reply(version, if current != 0 && current == version then map[] else payload)
  }

  predicate Usable(e: Entry, c: Clock) {
    c.asked - e.created < CACHE_TTL && (e.next.Some? ==> c.checked < e.next.value)
  }

  function Get(cache: map<string, Entry>, rows: Rows, slots: seq<string>, platform: string, current: int, c: Clock)
    : (map<string, Entry>, Reply)
  {
    if slots == [] then (cache, Reply(0, map[]))
    else
      var key := Key(slots, platform);
      if key in cache && Usable(cache[key], c) then (cache, Answer(current, cache[key].version, cache[key].payload))
      else
        var e := Computed(rows, slots, platform, c);
        (cache[key := e], Answer(current, e.version, e.payload))
  }

  class ConfigCache {
    var entries: map<string, Entry>

    method GetConfig(rows: Rows, slots: seq<string>, platform: string, current: int, c: Clock) returns (reply: Reply)
      modifies this
      ensures (entries, reply) == Get(old(entries), rows, slots, platform, current, c)
    {
      if slots == [] {
        return Reply(0, map[]);
      }
      var key := Key(slots, platform);
      if key in entries {
        var e := entries[key];
        var valid := c.asked - e.created < CACHE_TTL;
        if e.next.Some? {
          valid := valid && c.checked < e.next.value;
        }
        if valid {
          if current != 0 && current == e.version {
            return Reply(e.version, map[]);
          }
          return Reply(e.version, e.payload);
        }
      }
      var version := Version(rows, slots, c.versioned);
      var payload: Payload;
      if version == 0 {
        payload := map slot | slot in slots :: [];
      } else {
        payload := LoadActiveCreatives(rows.placed, slots, platform, c.filtered);
      }
      entries := entries[key := Entry(c.asked, version, payload, NextChange(rows, slots, c.versioned), c.versioned, c.filtered)];
      if current != 0 && current == version {
        return Reply(version, map[]);
      }
      return Reply(version, payload);
    }

    method InvalidateCache()
      modifies this
      ensures entries == map[]
    {
      if entries != map[] {
        entries := map[];
      }
    }
  }

  // ---------- the order of the rows ----------

  predicate Shows(r: Row, slot: string, platform: string, now: int, x: Item) {
    r.slot == slot && Active(r.creative, platform, now) && ItemOf(r) == x
  }

  lemma {:induction false} ShownFrom(placed: seq<Row>, slot: string, platform: string, now: int, x: Item)
    ensures x in Shown(placed, slot, platform, now) <==> exists r :: r in placed && Shows(r, slot, platform, now, x)
  {
    hide Active;
    if placed != [] {
      var init, last := placed[..|placed| - 1], placed[|placed| - 1];
      ShownFrom(init, slot, platform, now, x);
      assert placed == init + [last] && last in placed;
    }
  }

  ghost predicate DistinctIds(xs: seq<Item>) {
    forall i, j :: 0 <= i < j < |xs| ==> xs[i].id != xs[j].id
  }

  lemma {:induction false} ShownDistinct(placed: seq<Row>, slot: string, platform: string, now: int)
    requires RowsOk(placed)
    ensures DistinctIds(Shown(placed, slot, platform, now))
  {
    hide Active;
    if placed != [] {
      var init, last := placed[..|placed| - 1], placed[|placed| - 1];
      ShownDistinct(init, slot, platform, now);
      forall x | x in Shown(init, slot, platform, now)
        ensures last.slot == slot ==> x.id != last.creative.id
      {
        ShownFrom(init, slot, platform, now, x);
      }
    }
  }

  lemma PrecedesIsTotal()
    ensures TotalPreorder(Precedes)
  {
  }

  lemma SameItem(xs: seq<Item>, a: Item, b: Item)
    requires DistinctIds(xs) && a in xs && b in xs && Precedes(a, b) && Precedes(b, a)
    ensures a == b
  {
  }

  lemma ShownPermuted(xs: seq<Row>, ys: seq<Row>, slot: string, platform: string, now: int)
    requires RowsOk(xs) && RowsOk(ys) && multiset(xs) == multiset(ys)
    ensures multiset(Shown(xs, slot, platform, now)) == multiset(Shown(ys, slot, platform, now))
  {
    hide Shown, Shows, RowsOk;
    ShownDistinct(xs, slot, platform, now);
    ShownDistinct(ys, slot, platform, now);
    assert forall r :: r in multiset(xs) <==> r in multiset(ys);
    forall x
      ensures x in Shown(xs, slot, platform, now) <==> x in Shown(ys, slot, platform, now)
    {
      ShownFrom(xs, slot, platform, now, x);
      ShownFrom(ys, slot, platform, now, x);
      assert forall r :: r in xs <==> r in multiset(xs);
      assert forall r :: r in ys <==> r in multiset(ys);
    }
    SameMembers(Shown(xs, slot, platform, now), Shown(ys, slot, platform, now));
  }

  lemma SlotOrderIrrelevant(xs: seq<Row>, ys: seq<Row>, slot: string, platform: string, now: int)
    requires RowsOk(xs) && RowsOk(ys) && multiset(xs) == multiset(ys)
    ensures Sort(Precedes, Shown(xs, slot, platform, now)) == Sort(Precedes, Shown(ys, slot, platform, now))
  {
    hide Shown, Precedes, RowsOk;
    var a, b := Shown(xs, slot, platform, now), Shown(ys, slot, platform, now);
    PrecedesIsTotal();
    ShownPermuted(xs, ys, slot, platform, now);
    ShownDistinct(xs, slot, platform, now);
    SortSorts(Precedes, a);
    SortSorts(Precedes, b);
    SortPermutes(Precedes, a);
    SortPermutes(Precedes, b);
    forall x, y | x in Sort(Precedes, a) && y in Sort(Precedes, a) && Precedes(x, y) && Precedes(y, x)
      ensures x == y
    {
      SortMembers(Precedes, a, x);
      SortMembers(Precedes, a, y);
      SameItem(a, x, y);
    }
    SortedUnique(Precedes, Sort(Precedes, a), Sort(Precedes, b));
  }

  /** Whatever order the rows come back in, the configuration is the same. */
  lemma OrderIrrelevant(xs: seq<Row>, ys: seq<Row>, slots: seq<string>, platform: string, now: int)
    requires RowsOk(xs) && RowsOk(ys) && multiset(xs) == multiset(ys)
    ensures ActiveBySlot(xs, slots, platform, now) == ActiveBySlot(ys, slots, platform, now)
  {
    hide Sort, Shown, RowsOk;
    forall slot | slot in slots
      ensures Sort(Precedes, Shown(xs, slot, platform, now)) == Sort(Precedes, Shown(ys, slot, platform, now))
    {
      SlotOrderIrrelevant(xs, ys, slot, platform, now);
    }
  }

  // ---------- cache keys ----------

  predicate CommaFree(slots: seq<string>) {
    slots != [] && forall i :: 0 <= i < |slots| ==> ',' !in slots[i]
  }

  predicate PlainRequest(slots: seq<string>, platform: string) {
    CommaFree(slots) && ':' !in platform
  }

  lemma SplitUnique(a: string, x: string, b: string, y: string, sep: char)
    requires a + [sep] + x == b + [sep] + y && sep !in a && sep !in b
    ensures a == b && x == y
  {
    var s := a + [sep] + x;
    FirstSeparator(a, x, sep);
    FirstSeparator(b, y, sep);
    assert s[..|a|] == a && s[..|b|] == b && s[|a| + 1..] == x && s[|b| + 1..] == y;
  }

  lemma FirstSeparator(a: string, x: string, sep: char)
    requires sep !in a
    ensures var s := a + [sep] + x; s[|a|] == sep && forall i :: 0 <= i < |a| ==> s[i] != sep
  {
  }

  lemma JoinHasComma(xs: seq<string>)
    requires |xs| > 1
    ensures ',' in Join(xs)
  {
  }

  lemma {:induction false} JoinInjective(xs: seq<string>, ys: seq<string>)
    requires xs != [] && ys != [] && Join(xs) == Join(ys)
    requires forall i :: 0 <= i < |xs| ==> ',' !in xs[i]
    requires forall i :: 0 <= i < |ys| ==> ',' !in ys[i]
    ensures xs == ys
    decreases |xs| + |ys|
  {
    if |xs| > 1 && |ys| > 1 {
      SplitUnique(xs[0], Join(xs[1..]), ys[0], Join(ys[1..]), ',');
      JoinInjective(xs[1..], ys[1..]);
      assert xs == [xs[0]] + xs[1..] && ys == [ys[0]] + ys[1..];
    } else if |xs| > 1 {
      JoinHasComma(xs);
    } else if |ys| > 1 {
      JoinHasComma(ys);
    }
  }

  /** Without ':' in the platform and ',' in the slots, different requests have different keys. */
  lemma KeyInjective(slots: seq<string>, platform: string, slots': seq<string>, platform': string)
    requires PlainRequest(slots, platform) && PlainRequest(slots', platform')
    requires Key(slots, platform) == Key(slots', platform')
    ensures slots == slots' && platform == platform'
  {
    SplitUnique(platform, Join(slots), platform', Join(slots'), ':');
    JoinInjective(slots, slots');
  }

  /** A platform with ':' shares an entry with another platform. */
  lemma KeyClash()
    ensures Key(["b"], "p:a") == Key(["a:b"], "p")
  {
    assert "p:a" + [':'] + "b" == "p" + [':'] + "a:b";
  }

  /** Its entry is then served to the other request: a reply for slot "b" where "a:b" was asked for. */
  lemma OthersEntryServed(rows: Rows, t: int)
    ensures var c := Clock(t, t, t, t);
            var cache := Get(map[], rows, ["b"], "p:a", 0, c).0;
            && Get(cache, rows, ["a:b"], "p", 0, c).1.slots.Keys == {"b"}
            && FreshAnswer(rows, ["a:b"], "p", 0, t).slots.Keys == {"a:b"}
  {
    KeyClash();
    OneSlot(rows, "b", "p:a", t);
    OneSlot(rows, "a:b", "p", t);
    hide Key, Contents, Version;
  }

  lemma OneSlot(rows: Rows, slot: string, platform: string, t: int)
    ensures forall version :: Contents(rows, [slot], platform, version, t).Keys == {slot}
  {
    hide Sort, Shown;
    assert forall x :: x in [slot] <==> x == slot;
  }

  /** The list a joined string comes from. */
  function Split(s: string): (r: seq<string>)
    ensures CommaFree(r) && Join(r) == s
  {
    if s == "" then [""]
    else
      var rest := Split(s[1..]);
      if s[0] == ',' then
        assert ([""] + rest)[1..] == rest;
        [""] + rest
      else
        var r := [[s[0]] + rest[0]] + rest[1..];
        assert r[1..] == rest[1..];
        r
  }

  predicate ColonFree(slots: seq<string>) {
    forall i :: 0 <= i < |slots| ==> ':' !in slots[i]
  }

  lemma {:induction false} JoinColon(slots: seq<string>)
    requires slots != []
    ensures ':' in Join(slots) <==> !ColonFree(slots)
  {
    if |slots| > 1 {
      JoinColon(slots[1..]);
      assert slots == [slots[0]] + slots[1..];
      assert ColonFree(slots) <==> ':' !in slots[0] && ColonFree(slots[1..]) by {
        assert forall i :: 0 < i < |slots| ==> slots[i] == slots[1..][i - 1];
      }
    }
  }

  ghost predicate Alone(slots: seq<string>, platform: string)
    requires slots != []
  {
    forall slots', platform' :: CommaFree(slots') && Key(slots', platform') == Key(slots, platform) ==>
      slots' == slots && platform' == platform
  }

  lemma OnlySplit(slots: seq<string>, platform: string, slots': seq<string>, platform': string)
    requires CommaFree(slots) && CommaFree(slots') && Key(slots', platform') == Key(slots, platform)
    requires ':' !in platform && ':' !in Join(slots)
    ensures slots' == slots && platform' == platform
  {
    var s := Key(slots, platform);
    assert s[|platform'|] == ':';
    assert forall i :: 0 <= i < |s| && s[i] == ':' ==> i == |platform|;
    assert s[..|platform|] == platform && s[..|platform'|] == platform';
    assert s[|platform| + 1..] == Join(slots) && s[|platform'| + 1..] == Join(slots');
    JoinInjective(slots, slots');
  }

  lemma OtherSplit(slots: seq<string>, platform: string, i: nat)
    requires slots != [] && i < |Key(slots, platform)| && Key(slots, platform)[i] == ':' && i != |platform|
    ensures !Alone(slots, platform)
  {
    var s := Key(slots, platform);
    var slots', platform' := Split(s[i + 1..]), s[..i];
    assert s == s[..i] + [s[i]] + s[i + 1..];
    assert CommaFree(slots') && Key(slots', platform') == s && |platform'| != |platform|;
  }

  /** Among requests whose slots have no ',', one shares its key with no other exactly when ':' is in none of its names. */
  lemma KeyAloneExactly(slots: seq<string>, platform: string)
    requires CommaFree(slots)
    ensures Alone(slots, platform) <==> ':' !in platform && ColonFree(slots)
  {
    JoinColon(slots);
    var s := Key(slots, platform);
    if ':' in platform {
      var i :| 0 <= i < |platform| && platform[i] == ':';
      assert s[i] == ':';
      OtherSplit(slots, platform, i);
    } else if ':' in Join(slots) {
      var i :| 0 <= i < |Join(slots)| && Join(slots)[i] == ':';
      assert s[|platform| + 1 + i] == ':';
      OtherSplit(slots, platform, |platform| + 1 + i);
    } else {
      forall slots', platform' | CommaFree(slots') && Key(slots', platform') == s
        ensures slots' == slots && platform' == platform
      {
        OnlySplit(slots, platform, slots', platform');
      }
    }
  }

  // ---------- the cached answer and the fresh one ----------

  lemma {:induction false} InstantsOf(placed: seq<Row>, slots: seq<string>, i: nat)
    requires i < |placed| && placed[i].slot in slots
    ensures placed[i].creative.start.Some? ==> placed[i].creative.start.value in Instants(placed, slots)
    ensures placed[i].creative.end.Some? ==> placed[i].creative.end.value in Instants(placed, slots)
  {
    if i < |placed| - 1 {
      InstantsOf(placed[..|placed| - 1], slots, i);
    }
  }

  lemma {:induction false} UpToSame(xs: seq<int>, a: int, b: int)
    requires a <= b && forall i :: 0 <= i < |xs| ==> !(a < xs[i] <= b)
    ensures UpTo(xs, a) == UpTo(xs, b)
  {
    if xs != [] {
      UpToSame(xs[..|xs| - 1], a, b);
    }
  }

  /** Before the next change the version stays what it is. */
  lemma VersionStays(rows: Rows, slots: seq<string>, versioned: int, t: int)
    requires versioned <= t
    requires NextChange(rows, slots, versioned).Some? ==> t < NextChange(rows, slots, versioned).value
    ensures Version(rows, slots, versioned) == Version(rows, slots, t)
  {
    var xs := Instants(rows.placed, slots);
    assert forall i :: 0 <= i < |xs| ==> xs[i] in xs;
    UpToSame(xs, versioned, t);
  }

  /** A creative of the request that is shown at the very instant it ends. */
  ghost predicate EndsNow(placed: seq<Row>, slots: seq<string>, platform: string, now: int) {
    exists i :: 0 <= i < |placed| && placed[i].slot in slots && Active(placed[i].creative, platform, now) &&
                placed[i].creative.end == Some(now)
  }

  /** The case in which the filter ran on the instant of the version and some creative ended just then. */
  ghost predicate Slipped(rows: Rows, slots: seq<string>, platform: string, versioned: int, filtered: int, t: int) {
    versioned == filtered < t && EndsNow(rows.placed, slots, platform, filtered)
  }

  lemma ActiveStays(rows: Rows, slots: seq<string>, platform: string, versioned: int, filtered: int, t: int, i: nat)
    requires versioned <= filtered <= t && i < |rows.placed| && rows.placed[i].slot in slots
    requires NextChange(rows, slots, versioned).Some? ==> t < NextChange(rows, slots, versioned).value
    ensures var c := rows.placed[i].creative;
            Active(c, platform, filtered) != Active(c, platform, t) <==>
            versioned == filtered < t && Active(c, platform, filtered) && c.end == Some(filtered)
  {
    hide OnPlatform;
    InstantsOf(rows.placed, slots, i);
  }

  lemma {:induction false} ShownSame(placed: seq<Row>, slot: string, platform: string, a: int, b: int)
    requires forall i :: 0 <= i < |placed| && placed[i].slot == slot ==>
               Active(placed[i].creative, platform, a) == Active(placed[i].creative, platform, b)
    ensures Shown(placed, slot, platform, a) == Shown(placed, slot, platform, b)
  {
    hide Active;
    if placed != [] {
      var init := placed[..|placed| - 1];
      assert forall i :: 0 <= i < |init| ==> init[i] == placed[i];
      ShownSame(init, slot, platform, a, b);
    }
  }

  lemma GoneWhenEnded(rows: Rows, slots: seq<string>, platform: string, filtered: int, t: int)
    requires RowsOk(rows.placed) && filtered < t && EndsNow(rows.placed, slots, platform, filtered)
    ensures ActiveBySlot(rows.placed, slots, platform, filtered) != ActiveBySlot(rows.placed, slots, platform, t)
  {
    var placed := rows.placed;
    var i :| 0 <= i < |placed| && placed[i].slot in slots && Active(placed[i].creative, platform, filtered) &&
             placed[i].creative.end == Some(filtered);
    var slot, x := placed[i].slot, ItemOf(placed[i]);
    ShownFrom(placed, slot, platform, filtered, x);
    ShownFrom(placed, slot, platform, t, x);
    assert Shows(placed[i], slot, platform, filtered, x);
    forall r | r in placed
      ensures !Shows(r, slot, platform, t, x)
    {
      var j :| 0 <= j < |placed| && placed[j] == r;
    }
    SortMembers(Precedes, Shown(placed, slot, platform, filtered), x);
    SortMembers(Precedes, Shown(placed, slot, platform, t), x);
    assert x in ActiveBySlot(placed, slots, platform, filtered)[slot];
    assert x !in ActiveBySlot(placed, slots, platform, t)[slot];
  }

  /** Before the next change, the payload filtered at caching time is the one filtered now, unless a creative slipped. */
  lemma PayloadStaysExactly(rows: Rows, slots: seq<string>, platform: string, versioned: int, filtered: int, t: int)
    requires RowsOk(rows.placed) && versioned <= filtered <= t
    requires NextChange(rows, slots, versioned).Some? ==> t < NextChange(rows, slots, versioned).value
    ensures ActiveBySlot(rows.placed, slots, platform, filtered) == ActiveBySlot(rows.placed, slots, platform, t) <==>
            !Slipped(rows, slots, platform, versioned, filtered, t)
  {
    hide Active, Sort, RowsOk, NextChange;
    if Slipped(rows, slots, platform, versioned, filtered, t) {
      GoneWhenEnded(rows, slots, platform, filtered, t);
    } else {
      forall slot | slot in slots
        ensures Shown(rows.placed, slot, platform, filtered) == Shown(rows.placed, slot, platform, t)
      {
        forall i | 0 <= i < |rows.placed| && rows.placed[i].slot == slot
          ensures Active(rows.placed[i].creative, platform, filtered) == Active(rows.placed[i].creative, platform, t)
        {
          ActiveStays(rows, slots, platform, versioned, filtered, t, i);
        }
        ShownSame(rows.placed, slot, platform, filtered, t);
      }
    }
  }

  function FreshAnswer(rows: Rows, slots: seq<string>, platform: string, current: int, t: int): Reply {
    var version := Version(rows, slots, t);
    Answer(current, version, Contents(rows, slots, platform, version, t))
  }

  ghost predicate StoredFrom(e: Entry, rows: Rows, slots: seq<string>, platform: string) {
    e == Computed(rows, slots, platform, Clock(e.created, e.created, e.versioned, e.filtered))
  }

  /** The answer does not show the payload at all: nothing was ever stamped, or the client is up to date. */
  predicate Hidden(current: int, version: int) {
    version == 0 || (current != 0 && current == version)
  }

  /**
   While the rows are unchanged, an answer from the cache is the one computed from
   scratch at that time, exactly unless a creative was cached at the instant it ended
   (and the answer shows it).
   */
  lemma CachedAnswerExactly(e: Entry, rows: Rows, slots: seq<string>, platform: string, current: int, c: Clock)
    requires RowsOk(rows.placed) && StoredFrom(e, rows, slots, platform)
    requires e.versioned <= e.filtered <= c.asked <= c.checked && Usable(e, c)
    ensures Answer(current, e.version, e.payload) == FreshAnswer(rows, slots, platform, current, c.checked) <==>
            Hidden(current, e.version) || !Slipped(rows, slots, platform, e.versioned, e.filtered, c.checked)
  {
    hide ActiveBySlot, Version, NextChange, Slipped, RowsOk;
    VersionStays(rows, slots, e.versioned, c.checked);
    PayloadStaysExactly(rows, slots, platform, e.versioned, e.filtered, c.checked);
  }

  const NOON: int := 100 * SECOND

  /** The exception happens: cached at the instant it ends, a banner is still served a moment later. */
  lemma EndedStillServed()
    ensures var rows := Rows([Row("home", 1, Creative(7, true, None, Some(NOON), [], 100, "sale"))], [SECOND]);
            var e := Computed(rows, ["home"], "miniapp", Clock(NOON, NOON, NOON, NOON));
            var c := Clock(NOON + 1, NOON + 1, NOON + 1, NOON + 1);
            Usable(e, c) && Answer(0, e.version, e.payload) != FreshAnswer(rows, ["home"], "miniapp", 0, c.checked)
  {
    hide ActiveBySlot;
    var banner := Creative(7, true, None, Some(NOON), [], 100, "sale");
    var placed := [Row("home", 1, banner)];
    var rows := Rows(placed, [SECOND]);
    var slots := ["home"];
    assert placed[..0] == [] && "home" in slots;
    assert Instants(placed, slots) == Instants([], slots) + [NOON] == [NOON];
    assert [NOON][..0] == [];
    assert NextChange(rows, slots, NOON) == None;
    assert UpTo([NOON], NOON) == UpTo([], NOON) + [NOON] == [NOON];
    assert NOON in [SECOND] + [NOON];
    assert Version(rows, slots, NOON) == 100;
    assert Slipped(rows, slots, "miniapp", NOON, NOON, NOON + 1);
    CachedAnswerExactly(Computed(rows, slots, "miniapp", Clock(NOON, NOON, NOON, NOON)), rows, slots, "miniapp", 0,
                        Clock(NOON + 1, NOON + 1, NOON + 1, NOON + 1));
  }

  // ---------- what is shown, in which order, for how long ----------

  /** A creative shows in a requested slot exactly if it is placed there, on, on time and for that platform. */
  lemma ShownExactly(placed: seq<Row>, slots: seq<string>, platform: string, now: int, slot: string, x: Item)
    requires slot in slots
    ensures x in ActiveBySlot(placed, slots, platform, now)[slot] <==>
            exists r :: && r in placed && r.slot == slot && r.creative.enabled
                        && (r.creative.start.None? || r.creative.start.value <= now)
                        && (r.creative.end.None? || now <= r.creative.end.value)
                        && (platform in r.creative.platforms || (r.creative.platforms == [] && platform == "miniapp"))
                        && x == Item(r.creative.id, r.creative.content, r.creative.priority, r.sortOrder)
  {
    SortMembers(Precedes, Shown(placed, slot, platform, now), x);
    ShownFrom(placed, slot, platform, now, x);
    hide Sort, Shown;
  }

  /** Within a slot the smaller priority number comes first, then the smaller sort order, then the older creative. */
  lemma ShownInOrder(placed: seq<Row>, slots: seq<string>, platform: string, now: int, slot: string, i: nat, j: nat)
    requires slot in slots && i < j < |ActiveBySlot(placed, slots, platform, now)[slot]|
    ensures var a, b := ActiveBySlot(placed, slots, platform, now)[slot][i], ActiveBySlot(placed, slots, platform, now)[slot][j];
            || a.priority < b.priority
            || (a.priority == b.priority && a.sortOrder < b.sortOrder)
            || (a.priority == b.priority && a.sortOrder == b.sortOrder && a.id <= b.id)
  {
    PrecedesIsTotal();
    SortSorts(Precedes, Shown(placed, slot, platform, now));
    hide Sort, Shown;
  }

  predicate Changes(r: Row, slots: seq<string>, x: int) {
    r.slot in slots && (r.creative.start == Some(x) || r.creative.end == Some(x))
  }

  /** A creative of the request starts or ends then. */
  ghost predicate ChangesAt(placed: seq<Row>, slots: seq<string>, x: int) {
    exists r :: r in placed && Changes(r, slots, x)
  }

  lemma {:induction false} InstantsExactly(placed: seq<Row>, slots: seq<string>, x: int)
    ensures x in Instants(placed, slots) <==> ChangesAt(placed, slots, x)
  {
    if placed != [] {
      var init, last := placed[..|placed| - 1], placed[|placed| - 1];
      InstantsExactly(init, slots, x);
      assert x in (if last.slot in slots then Times(last.creative) else []) <==> Changes(last, slots, x);
      hide Changes, Times;
      assert placed == init + [last];
      assert ChangesAt(placed, slots, x) <==> ChangesAt(init, slots, x) || Changes(last, slots, x);
    }
  }

  lemma {:induction false} UpToExactly(xs: seq<int>, now: int, x: int)
    ensures x in UpTo(xs, now) <==> x in xs && x <= now
  {
    if xs != [] {
      UpToExactly(xs[..|xs| - 1], now, x);
      assert xs == xs[..|xs| - 1] + [xs[|xs| - 1]];
    }
  }

  /** A row was stamped then, or a creative of the request has started or ended then. */
  ghost predicate Versions(rows: Rows, slots: seq<string>, now: int, x: int) {
    x in rows.stamps || (x <= now && ChangesAt(rows.placed, slots, x))
  }

  /** The version is the latest such instant in whole seconds, cut toward zero; zero if there is none. */
  lemma VersionExactly(rows: Rows, slots: seq<string>, now: int)
    ensures var v := Version(rows, slots, now);
            || (v == 0 && forall x :: !Versions(rows, slots, now, x))
            || exists x :: Versions(rows, slots, now, x) && (forall y :: Versions(rows, slots, now, y) ==> y <= x) &&
                           if x >= 0 then v * SECOND <= x < (v + 1) * SECOND else (v - 1) * SECOND < x <= v * SECOND
  {
    var times := Instants(rows.placed, slots);
    var all := rows.stamps + UpTo(times, now);
    forall x
      ensures x in all <==> Versions(rows, slots, now, x)
    {
      InstantsExactly(rows.placed, slots, x);
      UpToExactly(times, now, x);
    }
    hide Instants, UpTo, ChangesAt, Versions;
    if Greatest(all).None? {
      assert forall x :: x !in all;
    } else {
      assert Greatest(all).value in all;
    }
  }

  /** The next change is the first later instant at which a creative of the request starts or ends, if there is one. */
  lemma NextChangeExactly(rows: Rows, slots: seq<string>, now: int)
    ensures match NextChange(rows, slots, now)
            case None => forall x :: ChangesAt(rows.placed, slots, x) ==> x <= now
            case Some(x) =>
              now < x && ChangesAt(rows.placed, slots, x) && forall y :: ChangesAt(rows.placed, slots, y) && now < y ==> x <= y
  {
    forall x
      ensures x in Instants(rows.placed, slots) <==> ChangesAt(rows.placed, slots, x)
    {
      InstantsExactly(rows.placed, slots, x);
    }
    hide Instants, ChangesAt;
  }

  /** Without an entry, or with one of three hundred seconds or whose next change has come, the rows as they are answer. */
  lemma OldEntryRecomputed(cache: map<string, Entry>, rows: Rows, slots: seq<string>, platform: string, current: int, c: Clock)
    requires slots != []
    requires Key(slots, platform) in cache ==>
               var e := cache[Key(slots, platform)];
               c.asked - e.created >= 300_000_000 || (e.next.Some? && c.checked >= e.next.value)
    ensures var (cache', reply) := Get(cache, rows, slots, platform, current, c);
            && cache' == cache[Key(slots, platform) := cache'[Key(slots, platform)]]
            && var e := cache'[Key(slots, platform)];
               && e.created == c.asked && e.next == NextChange(rows, slots, c.versioned)
               && e.version == Version(rows, slots, c.versioned)
               && (forall slot :: slot in e.payload <==> slot in slots)
               && (forall slot :: slot in slots ==>
                    e.payload[slot] == if e.version == 0 then []
                                       else ActiveBySlot(rows.placed, slots, platform, c.filtered)[slot])
               && reply == Reply(e.version, if current != 0 && current == e.version then map[] else e.payload)
  {
  }

  /** A request for no slots gets version zero and leaves the cache alone. */
  lemma NoSlotsAsked(cache: map<string, Entry>, rows: Rows, platform: string, current: int, c: Clock)
    ensures Get(cache, rows, [], platform, current, c) == (cache, Reply(0, map[]))
  {
  }

  /** A younger entry answers, whatever the rows have become. */
  lemma YoungEntryAnswers(cache: map<string, Entry>, rows: Rows, slots: seq<string>, platform: string, current: int, c: Clock)
    requires slots != [] && Key(slots, platform) in cache
    requires var e := cache[Key(slots, platform)];
             c.asked - e.created < 300_000_000 && (e.next.Some? ==> c.checked < e.next.value)
    ensures var e := cache[Key(slots, platform)];
            var (cache', reply) := Get(cache, rows, slots, platform, current, c);
            && cache' == cache && reply.version == e.version
            && (if current != 0 && current == e.version then reply.slots == map[] else reply.slots == e.payload)
  {
  }
}
