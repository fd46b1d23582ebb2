/**
 The alignment of a wanted pick-up time to the shop's opening hours
 (app/services/reservations.py).  Times are local to the shop, whose zone has a
 fixed offset; a tick is a microsecond.
 */
module OpenHours {
  import opened Wrappers
  import opened Sorting

  /** Minute of the day, as an accepted "HH:MM" gives it. */
  type Clock = m: nat | m < 1440

  datatype Range = Range(start: Clock, end: Clock)

  /** A configured pair; a component that does not parse is None. */
  datatype RawRange = RawRange(start: Option<Clock>, end: Option<Clock>)

  /** One entry of the opening hours; its weekday is None when it is not an integer. */
  datatype Entry = Entry(weekday: Option<int>, ranges: seq<RawRange>)

  // ---------- the sorted table of one weekday ----------

  predicate Before(a: Range, b: Range) {
    a.start < b.start || (a.start == b.start && a.end <= b.end)
  }

  function Parsed(raw: seq<RawRange>): seq<Range> {
    if raw == [] then []
    else
      Parsed(raw[..|raw| - 1]) +
      var last := raw[|raw| - 1];
      if last.start.Some? && last.end.Some? then [Range(last.start.value, last.end.value)] else []
  }

  /** Ranges of the entries that name the weekday, or of all entries when it is None. */
  function Collected(entries: seq<Entry>, weekday: Option<int>): seq<Range> {
    if entries == [] then []
    else
      var last := entries[|entries| - 1];
      Collected(entries[..|entries| - 1], weekday) +
      (if weekday == None || last.weekday == weekday then Parsed(last.ranges) else [])
  }

  /** The weekday's own ranges, sorted; with none of its own, everybody's. */
  function Table(entries: seq<Entry>, weekday: int): seq<Range> {
    var own := Collected(entries, Some(weekday));
    Sort(Before, if own != [] then own else Collected(entries, None))
  }

  method ParseRanges(raw: seq<RawRange>, already: seq<Range>) returns (rs: seq<Range>)
    ensures rs == already + Parsed(raw)
  {
    rs := already;
    for i := 0 to |raw|
      invariant rs == already + Parsed(raw[..i])
    {
      assert raw[..i + 1][..i] == raw[..i];
      if raw[i].start.Some? && raw[i].end.Some? {
        rs := rs + [Range(raw[i].start.value, raw[i].end.value)];
      }
    }
    assert raw[..|raw|] == raw;
  }

  method IterRangesForWeekday(entries: seq<Entry>, weekday: int) returns (rs: seq<Range>)
    ensures rs == Table(entries, weekday)
  {
    hide Sort, Parsed;
    rs := [];
    for i := 0 to |entries|
      invariant rs == Collected(entries[..i], Some(weekday))
    {
      assert entries[..i + 1][..i] == entries[..i];
      if entries[i].weekday == Some(weekday) {
        rs := ParseRanges(entries[i].ranges, rs);
      }
    }
    assert entries[..|entries|] == entries;
    if rs != [] {
      return Sort(Before, rs);
    }
    for i := 0 to |entries|
      invariant rs == Collected(entries[..i], None)
    {
      assert entries[..i + 1][..i] == entries[..i];
      rs := ParseRanges(entries[i].ranges, rs);
    }
    return Sort(Before, rs);
  }

  // ---------- alignment ----------

  /** A local date and time; days are counted from some Monday. */
  datatype Local = Local(day: int, tick: int)

  function Weekday(day: int): int { day % 7 + 1 }

  predicate Proper(t: Local) { 0 <= t.tick < DAY }

  predicate Earlier(a: Local, b: Local) { a.day < b.day || (a.day == b.day && a.tick < b.tick) }

  function At(day: int, c: Clock): Local { Local(day, c * MINUTE) }

  predicate OpenOn(rs: seq<Range>, tick: int) {
    exists i :: 0 <= i < |rs| && rs[i].start * MINUTE <= tick <= rs[i].end * MINUTE
  }

  predicate WithinOpenHours(t: Local, entries: seq<Entry>) {
    OpenOn(Table(entries, Weekday(t.day)), t.tick)
  }

  /** Position of the first range whose end has not passed, or the length. */
  function FirstLeft(rs: seq<Range>, tick: int): (i: nat)
    ensures i <= |rs|
    ensures i < |rs| ==> tick <= rs[i].end * MINUTE
    ensures forall j :: 0 <= j < i ==> rs[j].end * MINUTE < tick
  {
    if rs == [] || tick <= rs[0].end * MINUTE then 0
    else
      var rest := FirstLeft(rs[1..], tick);
      assert forall j :: 0 < j < 1 + rest ==> rs[j] == rs[1..][j - 1];
      1 + rest
  }

  /** The alignment, given the tables of the day and of the next. */
  function AlignOn(today: seq<Range>, tomorrow: seq<Range>, t: Local): Option<Local> {
    if OpenOn(today, t.tick) then Some(t)
    else
      var i := FirstLeft(today, t.tick);
      if i < |today| then
        var start := At(t.day, today[i].start);
        Some(if Earlier(t, start) then start else t)
      else if tomorrow == [] then None
      else Some(At(t.day + 1, tomorrow[0].start))
  }

  function Align(t: Local, entries: seq<Entry>): Option<Local> {
    AlignOn(Table(entries, Weekday(t.day)), Table(entries, Weekday(t.day) % 7 + 1), t)
  }

  method WithinOpenHoursLoop(t: Local, entries: seq<Entry>) returns (open: bool)
    ensures open == WithinOpenHours(t, entries)
  {
    var rs := IterRangesForWeekday(entries, Weekday(t.day));
    for i := 0 to |rs|
      invariant forall j :: 0 <= j < i ==> !(rs[j].start * MINUTE <= t.tick <= rs[j].end * MINUTE)
    {
      if rs[i].start * MINUTE <= t.tick <= rs[i].end * MINUTE {
        return true;
      }
    }
    return false;
  }

  method AlignToOpenHours(t: Local, entries: seq<Entry>) returns (r: Option<Local>)
    ensures r == Align(t, entries)
  {
    hide Table, OpenOn;
    var open := WithinOpenHoursLoop(t, entries);
    if open {
      return Some(t);
    }
    var today := IterRangesForWeekday(entries, Weekday(t.day));
    for i := 0 to |today|
      invariant forall j :: 0 <= j < i ==> today[j].end * MINUTE < t.tick
    {
      if t.tick <= today[i].end * MINUTE {
        assert FirstLeft(today, t.tick) == i;
        var start := At(t.day, today[i].start);
        return Some(if Earlier(t, start) then start else t);
      }
    }
    var tomorrow := IterRangesForWeekday(entries, Weekday(t.day) % 7 + 1);
    if tomorrow != [] {
      return Some(At(t.day + 1, tomorrow[0].start));
    }
    return None;
  }

  // ---------- what the tables hold ----------

  ghost predicate IsConfigured(entries: seq<Entry>, r: Range) {
    exists e :: e in entries && RawRange(Some(r.start), Some(r.end)) in e.ranges
  }

  ghost predicate Unconfigured(entries: seq<Entry>) {
    forall r :: !IsConfigured(entries, r)
  }

  /** Every range that parses ends no earlier than it starts. */
  ghost predicate Ordered(entries: seq<Entry>) {
    forall r :: IsConfigured(entries, r) ==> r.start <= r.end
  }

  lemma {:induction false} ParsedComesFrom(raw: seq<RawRange>, r: Range)
    ensures r in Parsed(raw) <==> RawRange(Some(r.start), Some(r.end)) in raw
  {
    if raw != [] {
      var init, last := raw[..|raw| - 1], raw[|raw| - 1];
      ParsedComesFrom(init, r);
      assert raw == init + [last];
    }
  }

  lemma {:induction false} CollectedComesFrom(entries: seq<Entry>, weekday: Option<int>, r: Range)
    ensures r in Collected(entries, weekday) <==>
            exists e :: e in entries && (weekday == None || e.weekday == weekday) &&
                        RawRange(Some(r.start), Some(r.end)) in e.ranges
  {
    if entries != [] {
      var init, last := entries[..|entries| - 1], entries[|entries| - 1];
      CollectedComesFrom(init, weekday, r);
      ParsedComesFrom(last.ranges, r);
      assert entries == init + [last];
    }
  }

  lemma BeforeIsTotal()
    ensures TotalPreorder(Before)
  {
  }

  lemma TableFacts(entries: seq<Entry>, weekday: int)
    ensures forall r :: r in Table(entries, weekday) ==> IsConfigured(entries, r)
    ensures Table(entries, weekday) == [] ==> forall r :: !IsConfigured(entries, r)
    ensures forall i, j :: 0 <= i < j < |Table(entries, weekday)| ==>
      Table(entries, weekday)[i].start <= Table(entries, weekday)[j].start
  {
    var own := Collected(entries, Some(weekday));
    var all := Collected(entries, None);
    var chosen := if own != [] then own else all;
    BeforeIsTotal();
    SortSorts(Before, chosen);
    SortPermutes(Before, chosen);
    forall r
      ensures r in Table(entries, weekday) ==> IsConfigured(entries, r)
      ensures Table(entries, weekday) == [] ==> !IsConfigured(entries, r)
    {
      SortMembers(Before, chosen, r);
      CollectedComesFrom(entries, Some(weekday), r);
      CollectedComesFrom(entries, None, r);
    }
  }

  /** Some entry of that weekday holds a range that parses. */
  ghost predicate OwnHours(entries: seq<Entry>, weekday: int) {
    exists e, r: Range :: e in entries && e.weekday == Some(weekday) && RawRange(Some(r.start), Some(r.end)) in e.ranges
  }

  /**
   The configuration is open at that time: a parseable range of an entry of that
   weekday, or of any entry if the weekday has none of its own, holds it.  Day 0 is
   some Monday, the first day of the week.
   */
  ghost predicate OpenAt(t: Local, entries: seq<Entry>) {
    exists e, r: Range :: Serves(t, entries, e, r)
  }

  ghost predicate Serves(t: Local, entries: seq<Entry>, e: Entry, r: Range) {
    && e in entries && RawRange(Some(r.start), Some(r.end)) in e.ranges
    && r.start * MINUTE <= t.tick <= r.end * MINUTE
    && (e.weekday == Some(t.day % 7 + 1) || !OwnHours(entries, t.day % 7 + 1))
  }

  lemma TableMembers(entries: seq<Entry>, weekday: int, r: Range)
    ensures r in Table(entries, weekday) <==>
            exists e :: && e in entries && RawRange(Some(r.start), Some(r.end)) in e.ranges
                        && (e.weekday == Some(weekday) || !OwnHours(entries, weekday))
  {
    var own, all := Collected(entries, Some(weekday)), Collected(entries, None);
    SortMembers(Before, if own != [] then own else all, r);
    CollectedComesFrom(entries, Some(weekday), r);
    CollectedComesFrom(entries, None, r);
    OwnIsCollected(entries, weekday);
    hide Sort;
  }

  lemma OwnIsCollected(entries: seq<Entry>, weekday: int)
    ensures OwnHours(entries, weekday) <==> Collected(entries, Some(weekday)) != []
  {
    var own := Collected(entries, Some(weekday));
    if own != [] {
      CollectedComesFrom(entries, Some(weekday), own[0]);
    }
    if e, r: Range :| e in entries && e.weekday == Some(weekday) && RawRange(Some(r.start), Some(r.end)) in e.ranges {
      CollectedComesFrom(entries, Some(weekday), r);
    }
  }

  /** The loop over the weekday's table decides exactly what the entries say. */
  lemma OpenExactly(t: Local, entries: seq<Entry>)
    ensures WithinOpenHours(t, entries) <==> OpenAt(t, entries)
  {
    hide Table, OwnHours;
    var rs := Table(entries, t.day % 7 + 1);
    if WithinOpenHours(t, entries) {
      var i :| 0 <= i < |rs| && rs[i].start * MINUTE <= t.tick <= rs[i].end * MINUTE;
      TableMembers(entries, t.day % 7 + 1, rs[i]);
      var e :| e in entries && RawRange(Some(rs[i].start), Some(rs[i].end)) in e.ranges &&
               (e.weekday == Some(t.day % 7 + 1) || !OwnHours(entries, t.day % 7 + 1));
      assert Serves(t, entries, e, rs[i]);
    }
    if OpenAt(t, entries) {
      var e, r: Range :| Serves(t, entries, e, r);
      TableMembers(entries, t.day % 7 + 1, r);
      assert r in rs;
    }
  }

  // ---------- what alignment promises ----------

  /** Alignment finds nothing exactly when the configuration has no range at all. */
  lemma AlignNone(t: Local, entries: seq<Entry>)
    ensures Align(t, entries) == None <==> Unconfigured(entries)
  {
    hide Table;
    var today, tomorrow := Table(entries, Weekday(t.day)), Table(entries, Weekday(t.day) % 7 + 1);
    TableFacts(entries, Weekday(t.day));
    TableFacts(entries, Weekday(t.day) % 7 + 1);
    if tomorrow != [] {
      assert tomorrow[0] in tomorrow;
    }
    if today != [] {
      assert today[0] in today;
    }
  }

  ghost predicate Ascending(rs: seq<Range>) {
    forall i, j :: 0 <= i < j < |rs| ==> rs[i].start <= rs[j].start
  }

  lemma TablesOrdered(entries: seq<Entry>, w: int)
    requires Ordered(entries)
    ensures Ascending(Table(entries, w))
    ensures forall r :: r in Table(entries, w) ==> r.start <= r.end
  {
    TableFacts(entries, w);
  }

  lemma AlignOnLands(today: seq<Range>, tomorrow: seq<Range>, t: Local, r: Local)
    requires Ascending(today) && Ascending(tomorrow)
    requires forall x :: x in today || x in tomorrow ==> x.start <= x.end
    requires AlignOn(today, tomorrow, t) == Some(r)
    ensures !Earlier(r, t)
    ensures if r.day == t.day then OpenOn(today, r.tick) else r.day == t.day + 1 && OpenOn(tomorrow, r.tick)
  {
    var i := FirstLeft(today, t.tick);
    if !OpenOn(today, t.tick) {
      if i < |today| {
        assert today[i] in today;
        assert t.tick < today[i].start * MINUTE;
      } else {
        assert tomorrow[0] in tomorrow;
      }
    }
  }

  lemma AlignOnSkips(today: seq<Range>, tomorrow: seq<Range>, t: Local, r: Local, u: Local)
    requires Ascending(today) && Ascending(tomorrow) && Proper(t) && Proper(u)
    requires AlignOn(today, tomorrow, t) == Some(r) && !Earlier(u, t) && Earlier(u, r)
    ensures if u.day == t.day then !OpenOn(today, u.tick) else u.day == t.day + 1 && !OpenOn(tomorrow, u.tick)
  {
    var i := FirstLeft(today, t.tick);
    if i < |today| {
      assert today[i] in today;
      assert t.tick < today[i].start * MINUTE;
    }
  }

  lemma AlignSkipsNothing(t: Local, entries: seq<Entry>, r: Local, u: Local)
    requires Proper(t) && Proper(u) && Align(t, entries) == Some(r)
    requires !Earlier(u, t) && Earlier(u, r)
    ensures !OpenAt(u, entries)
  {
    hide Table;
    OpenExactly(u, entries);
    var w, w' := Weekday(t.day), Weekday(t.day) % 7 + 1;
    TableFacts(entries, w);
    TableFacts(entries, w');
    AlignOnSkips(Table(entries, w), Table(entries, w'), t, r, u);
    assert Weekday(u.day) == if u.day == t.day then w else w';
  }

  /** No open instant lies between the wanted time and the result, which is on that day or the next. */
  ghost predicate SkipsNothing(t: Local, entries: seq<Entry>, r: Local) {
    && !Earlier(r, t) && t.day <= r.day <= t.day + 1
    && forall u :: Proper(u) && !Earlier(u, t) && Earlier(u, r) ==> !OpenAt(u, entries)
  }

  lemma AlignedLater(t: Local, entries: seq<Entry>, r: Local)
    requires Proper(t) && Align(t, entries) == Some(r)
    ensures Proper(r) && !Earlier(r, t) && t.day <= r.day <= t.day + 1
  {
    hide Table, OpenOn;
  }

  /**
   For ranges of any shape the result skips no open instant.  With ranges that do not
   run past midnight it is open, so the least open instant at or after the wanted
   time, and aligning it again changes nothing.
   */
  lemma AlignLeast(t: Local, entries: seq<Entry>, r: Local)
    requires Proper(t) && Align(t, entries) == Some(r)
    ensures SkipsNothing(t, entries, r)
    ensures Ordered(entries) ==> OpenAt(r, entries) && Align(r, entries) == Some(r)
  {
    hide Table;
    AlignedLater(t, entries, r);
    forall u | Proper(u) && !Earlier(u, t) && Earlier(u, r)
      ensures !OpenAt(u, entries)
    {
      AlignSkipsNothing(t, entries, r, u);
    }
    OpenExactly(r, entries);
    hide OpenAt;
    if Ordered(entries) {
      var w, w' := Weekday(t.day), Weekday(t.day) % 7 + 1;
      TablesOrdered(entries, w);
      TablesOrdered(entries, w');
      AlignOnLands(Table(entries, w), Table(entries, w'), t, r);
      assert Weekday(r.day) == if r.day == t.day then w else w';
    }
  }

  // ---------- ranges that run past midnight ----------

  /** A range whose end comes no later than some earlier one's is never picked. */
  ghost predicate Pickable(rs: seq<Range>, i: nat)
    requires i < |rs|
  {
    forall j :: 0 <= j < i ==> rs[j].end < rs[i].end
  }

  ghost predicate Covered(rs: seq<Range>, c: Clock) {
    exists k :: 0 <= k < |rs| && rs[k].start <= c <= rs[k].end
  }

  /** The start of every range that can be picked lies inside some range of the same day. */
  ghost predicate StartsCovered(rs: seq<Range>) {
    forall i :: 0 <= i < |rs| && Pickable(rs, i) ==> Covered(rs, rs[i].start)
  }

  lemma CoveredIsOpen(rs: seq<Range>, c: Clock)
    ensures OpenOn(rs, c * MINUTE) <==> Covered(rs, c)
  {
  }

  lemma CoveredStartsLandOpen(today: seq<Range>, tomorrow: seq<Range>, t: Local, r: Local)
    requires StartsCovered(today) && StartsCovered(tomorrow)
    requires AlignOn(today, tomorrow, t) == Some(r)
    ensures if r.day == t.day then OpenOn(today, r.tick) else r.day == t.day + 1 && OpenOn(tomorrow, r.tick)
  {
    if !OpenOn(today, t.tick) {
      var i := FirstLeft(today, t.tick);
      if i < |today| {
        assert Pickable(today, i);
        CoveredIsOpen(today, today[i].start);
      } else {
        assert Pickable(tomorrow, 0);
        CoveredIsOpen(tomorrow, tomorrow[0].start);
      }
    }
  }

  lemma UncoveredStartIsPicked(rs: seq<Range>, tomorrow: seq<Range>, day: int, i: nat)
    requires i < |rs| && Ascending(rs) && Pickable(rs, i) && !Covered(rs, rs[i].start)
    ensures AlignOn(rs, tomorrow, At(day, rs[i].end)) == Some(At(day, rs[i].start))
    ensures !OpenOn(rs, rs[i].start * MINUTE)
  {
    CoveredIsOpen(rs, rs[i].start);
    assert rs[i].end < rs[i].start;
    forall k | 0 <= k < |rs|
      ensures !(rs[k].start <= rs[i].end <= rs[k].end)
    {
      if k > i {
        assert rs[i].start <= rs[k].start;
      }
    }
    CoveredIsOpen(rs, rs[i].end);
    assert FirstLeft(rs, rs[i].end * MINUTE) == i;
  }

  ghost predicate LandsOpen(t: Local, entries: seq<Entry>) {
    Align(t, entries).Some? ==> OpenAt(Align(t, entries).value, entries)
  }

  /** The result, if any, is the least open instant at or after the wanted time. */
  ghost predicate FindsLeast(t: Local, entries: seq<Entry>) {
    Align(t, entries).Some? ==>
      SkipsNothing(t, entries, Align(t, entries).value) && OpenAt(Align(t, entries).value, entries)
  }

  /**
   For ranges of any shape, alignment always finds the least open instant exactly
   when, on every weekday, the start of each range that can be picked is covered.
   */
  lemma AlignLeastExactly(entries: seq<Entry>)
    ensures (forall t :: Proper(t) ==> FindsLeast(t, entries)) <==>
            (forall w :: 1 <= w <= 7 ==> StartsCovered(Table(entries, w)))
  {
    hide Table, Align, SkipsNothing, OpenAt, StartsCovered;
    if forall w :: 1 <= w <= 7 ==> StartsCovered(Table(entries, w)) {
      forall t | Proper(t)
        ensures FindsLeast(t, entries)
      {
        LandsOpenWhenCovered(t, entries);
        if Align(t, entries).Some? {
          AlignLeast(t, entries, Align(t, entries).value);
        }
      }
    }
    if w :| 1 <= w <= 7 && !StartsCovered(Table(entries, w)) {
      ghost var t := MissesWhenUncovered(w, entries);
      assert !FindsLeast(t, entries);
    }
  }

  lemma LandsOpenWhenCovered(t: Local, entries: seq<Entry>)
    requires forall w :: 1 <= w <= 7 ==> StartsCovered(Table(entries, w))
    ensures LandsOpen(t, entries)
  {
    hide Table, AlignOn, OpenOn, StartsCovered;
    var w, w' := Weekday(t.day), Weekday(t.day) % 7 + 1;
    assert StartsCovered(Table(entries, w)) && StartsCovered(Table(entries, w'));
    if Align(t, entries).Some? {
      var r := Align(t, entries).value;
      OpenExactly(r, entries);
      hide OpenAt;
      CoveredStartsLandOpen(Table(entries, w), Table(entries, w'), t, r);
      assert Weekday(r.day) == if r.day == t.day then w else w';
    }
  }

  lemma MissesWhenUncovered(w: int, entries: seq<Entry>) returns (t: Local)
    requires 1 <= w <= 7 && !StartsCovered(Table(entries, w))
    ensures Proper(t) && !LandsOpen(t, entries)
  {
    hide Table;
    var rs := Table(entries, w);
    var i :| 0 <= i < |rs| && Pickable(rs, i) && !Covered(rs, rs[i].start);
    TableFacts(entries, w);
    t := At(w - 1, rs[i].end);
    assert Weekday(w - 1) == w;
    UncoveredStartIsPicked(rs, Table(entries, w % 7 + 1), w - 1, i);
    OpenExactly(At(w - 1, rs[i].start), entries);
    hide OpenAt;
  }

  const NIGHT: seq<Entry> := [Entry(Some(1), [RawRange(Some(1320), Some(120))])]

  /** One range from 22:00 to 02:00 is such a configuration: 01:00 is moved to 22:00, which is not open. */
  lemma OvernightRangeNotOpen()
    ensures Align(At(0, 60), NIGHT) == Some(At(0, 1320)) && !OpenAt(At(0, 1320), NIGHT)
  {
  }

  const WEEK: seq<Entry> :=
    [Entry(Some(1), [RawRange(Some(540), Some(720))]), Entry(Some(2), [RawRange(Some(840), Some(1080))])]

  /** Open on Monday from nine to twelve and on Tuesday from two to six: Monday at three becomes Tuesday at two. */
  lemma ClosedAfternoonMoves()
    ensures Align(At(0, 900), WEEK) == Some(At(1, 840))
  {
    hide Table, AlignOn;
    var mon, tue := Range(540, 720), Range(840, 1080);
    OneRange(1, mon);
    OneRange(2, tue);
    NextRange([mon], [tue], At(0, 900));
  }

  lemma NextRange(today: seq<Range>, tomorrow: seq<Range>, t: Local)
    requires tomorrow != [] && forall i :: 0 <= i < |today| ==> today[i].end * MINUTE < t.tick
    ensures AlignOn(today, tomorrow, t) == Some(At(t.day + 1, tomorrow[0].start))
  {
  }

  lemma OneRange(w: int, r: Range)
    requires (w == 1 && r == Range(540, 720)) || (w == 2 && r == Range(840, 1080))
    ensures Table(WEEK, w) == [r]
  {
    var raw := RawRange(Some(r.start), Some(r.end));
    assert [raw][..0] == [];
    assert Parsed([raw]) == Parsed([]) + [r] == [r];
    assert WEEK[..1][..0] == [] && WEEK[..0] == [] && WEEK[..2] == WEEK;
    assert Collected(WEEK[..1], Some(w)) == Collected([], Some(w)) + (if w == 1 then Parsed(WEEK[0].ranges) else []);
    assert Collected(WEEK, Some(w)) == Collected(WEEK[..1], Some(w)) + (if w == 2 then Parsed(WEEK[1].ranges) else []);
    assert Collected(WEEK, Some(w)) == [r];
    assert [r][1..] == [];
    assert Sort(Before, [r]) == Insert(Before, r, Sort(Before, [])) == [r];
  }

  // ---------- slots ----------

  /** The slot starts at a multiple of the slot length counted from the full hour. */
  function FloorToSlot(t: Local, slotMinutes: int): Local {
    var length := if slotMinutes > 1 then slotMinutes else 1;
    var hour := t.tick / (60 * MINUTE);
    var minute := t.tick / MINUTE % 60;
    Local(t.day, hour * 60 * MINUTE + minute / length * length * MINUTE)
  }

  lemma FloorMinutes(minute: int, length: int)
    requires 0 <= minute && 0 < length
    ensures 0 <= minute / length * length <= minute < minute / length * length + length
  {
  }

  /** A slot of the given length that starts there contains the instant, for any length. */
  lemma SlotContains(t: Local, slotMinutes: int)
    requires Proper(t) && slotMinutes >= 1
    ensures FloorToSlot(t, slotMinutes).day == t.day
    ensures FloorToSlot(t, slotMinutes).tick <= t.tick < FloorToSlot(t, slotMinutes).tick + slotMinutes * MINUTE
  {
    var minute := t.tick / MINUTE % 60;
    FloorMinutes(minute, slotMinutes);
    InItsMinute(t.tick);
  }

  lemma InItsMinute(tick: int)
    requires 0 <= tick
    ensures var start := tick / (60 * MINUTE) * 60 * MINUTE + tick / MINUTE % 60 * MINUTE;
            start <= tick < start + MINUTE
  {
  }

  /** A slot starts a whole number of slot lengths after the full hour, so times of one slot share its start. */
  lemma SlotAligned(t: Local, slotMinutes: int)
    requires Proper(t) && slotMinutes >= 1
    ensures exists n: nat ::
      n * slotMinutes < 60 && FloorToSlot(t, slotMinutes).tick == (t.tick / (60 * MINUTE) * 60 + n * slotMinutes) * MINUTE
  {
    var minute := t.tick / MINUTE % 60;
    FloorMinutes(minute, slotMinutes);
    var n := minute / slotMinutes;
    assert 0 <= n by {
      NotNegative(n, slotMinutes);
    }
    assert FloorToSlot(t, slotMinutes).tick == (t.tick / (60 * MINUTE) * 60 + n * slotMinutes) * MINUTE;
  }

  lemma NotNegative(n: int, length: int)
    requires length >= 1 && n * length >= 0
    ensures n >= 0
  {
    assert n < 0 ==> (n + 1) * length <= 0;
  }
}
