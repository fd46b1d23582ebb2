/**
 Runs of the advertisement cache in one process: calls, invalidations and commits
 interleave, and an edit's commit comes when it comes.
 */
module AdRuns {
  import opened Wrappers
  import opened Sorting
  import opened AdConfig

  // ---------- calls in flight ----------

  /** A version with its next change, when it was determined, from which rows, and after how many commits. */
  datatype Stamp = Stamp(version: int, next: Option<int>, at: int, rows: Rows, commit: nat)

  datatype Listing = Listing(payload: Payload, at: int, rows: Rows, commit: nat)

  /** A call the cache did not answer. */
  datatype Call = Call(slots: seq<string>, platform: string, asked: int, stamp: Option<Stamp>, listing: Option<Listing>)

  /** Where an entry came from; the program keeps no such record. */
  datatype Origin = Origin(stamp: Stamp, listing: Listing)

  datatype World = World(cache: map<string, Entry>, origins: map<string, Origin>, rows: Rows, commits: nat,
                         calls: seq<Call>, now: int)

  /** One call is up to four steps; an edit is an invalidation and a commit, in whichever order. */
  datatype Event =
    | Asks(slots: seq<string>, platform: string, drift: nat)
    | Versions(i: nat)
    | Filters(i: nat)
    | Stores(i: nat)
    | Invalidates
    | Commits(rows: Rows)
    | Ticks(d: nat)

  function EntryOf(asked: int, o: Origin): Entry {
    Entry(asked, o.stamp.version, o.listing.payload, o.stamp.next, o.stamp.at, o.listing.at)
  }

  predicate CanStore(w: World, i: nat) {
    i < |w.calls| && w.calls[i].slots != [] && w.calls[i].stamp.Some? && w.calls[i].listing.Some?
  }

  function KeyOf(call: Call): string
    requires call.slots != []
  {
    Key(call.slots, call.platform)
  }

  function StampNow(w: World, slots: seq<string>): Stamp {
    Stamp(Version(w.rows, slots, w.now), NextChange(w.rows, slots, w.now), w.now, w.rows, w.commits)
  }

  /** Without a version the rows are not read again. */
  function ListNow(w: World, call: Call, s: Stamp): Listing {
    if s.version == 0 then Listing(Contents(s.rows, call.slots, call.platform, 0, s.at), s.at, s.rows, s.commit)
    else Listing(Contents(w.rows, call.slots, call.platform, s.version, w.now), w.now, w.rows, w.commits)
  }

  function Step(w: World, e: Event): World {
    var calls := w.calls;
    match e
    case Asks(slots, platform, drift) =>
      var c := Clock(w.now, w.now + drift, w.now + drift, w.now + drift);
      var later := w.(now := w.now + drift);
      if slots == [] || (Key(slots, platform) in w.cache && Usable(w.cache[Key(slots, platform)], c)) then later
      else later.(calls := calls + [Call(slots, platform, w.now, None, None)])
    case Versions(i) =>
      if i < |calls| && calls[i].stamp.None? then
        w.(calls := calls[i := calls[i].(stamp := Some(StampNow(w, calls[i].slots)))])
      else w
    case Filters(i) =>
      if i < |calls| && calls[i].stamp.Some? && calls[i].listing.None? then
        w.(calls := calls[i := calls[i].(listing := Some(ListNow(w, calls[i], calls[i].stamp.value)))])
      else w
    case Stores(i) =>
      if CanStore(w, i) then
        var o := Origin(calls[i].stamp.value, calls[i].listing.value);
        w.(cache := w.cache[KeyOf(calls[i]) := EntryOf(calls[i].asked, o)],
           origins := w.origins[KeyOf(calls[i]) := o],
           calls := calls[..i] + calls[i + 1..])
      else w
    case Invalidates => w.(cache := map[])
    case Commits(rows) => w.(rows := rows, commits := w.commits + 1)
    case Ticks(d) => w.(now := w.now + d)
  }

  function Run(w: World, es: seq<Event>): World
    decreases es
  {
    if es == [] then w else Run(Step(w, es[0]), es[1..])
  }

  /** A call that nothing comes between leaves what `Get` leaves. */
  lemma UndisturbedCall(w: World, slots: seq<string>, platform: string, current: int)
    requires slots != [] && w.calls == []
    requires !(Key(slots, platform) in w.cache && Usable(w.cache[Key(slots, platform)], Clock(w.now, w.now, w.now, w.now)))
    ensures Run(w, [Asks(slots, platform, 0), Versions(0), Filters(0), Stores(0)]).cache ==
            Get(w.cache, w.rows, slots, platform, current, Clock(w.now, w.now, w.now, w.now)).0
  {
    hide Key, Usable, Version, NextChange, ActiveBySlot, Get;
    var es := [Asks(slots, platform, 0), Versions(0), Filters(0), Stores(0)];
    var w2 := Step(Step(w, es[0]), es[1]);
    var call := Call(slots, platform, w.now, Some(StampNow(w, slots)), None);
    assert w2 == w.(calls := [call]);
    var l := ListNow(w, call, StampNow(w, slots));
    var w4 := Step(Step(w2, es[2]), es[3]);
    assert w4.cache == w.cache[Key(slots, platform) := EntryOf(w.now, Origin(StampNow(w, slots), l))];
    hide Step;
    RunOfTwo(w, es);
    RunOfTwo(w2, es[2..]);
    assert es[2..][2..] == [];
    StoredAsComputed(w, slots, platform, current);
  }

  lemma StoredAsComputed(w: World, slots: seq<string>, platform: string, current: int)
    requires slots != []
    requires !(Key(slots, platform) in w.cache && Usable(w.cache[Key(slots, platform)], Clock(w.now, w.now, w.now, w.now)))
    ensures var s := StampNow(w, slots);
            var l := ListNow(w, Call(slots, platform, w.now, Some(s), None), s);
            Get(w.cache, w.rows, slots, platform, current, Clock(w.now, w.now, w.now, w.now)).0 ==
            w.cache[Key(slots, platform) := EntryOf(w.now, Origin(s, l))]
  {
    hide Key, Usable, Version, NextChange, ActiveBySlot;
  }

  lemma RunOfTwo(w: World, es: seq<Event>)
    requires |es| >= 2
    ensures Run(w, es) == Run(Step(Step(w, es[0]), es[1]), es[2..])
  {
    hide Step;
    assert es[1..][1..] == es[2..];
    assert Run(w, es) == Run(Step(w, es[0]), es[1..]);
  }

  // ---------- what every entry is made of ----------

  ghost predicate StampOk(w: World, s: Stamp, slots: seq<string>) {
    && s.version == Version(s.rows, slots, s.at) && s.next == NextChange(s.rows, slots, s.at)
    && s.at <= w.now && s.commit <= w.commits && RowsOk(s.rows.placed)
    && (s.commit == w.commits ==> s.rows == w.rows)
  }

  ghost predicate ListingOk(w: World, l: Listing, s: Stamp, slots: seq<string>, platform: string) {
    && l.payload == Contents(l.rows, slots, platform, s.version, l.at)
    && s.at <= l.at <= w.now && s.commit <= l.commit <= w.commits && RowsOk(l.rows.placed)
    && (l.commit == s.commit ==> l.rows == s.rows)
    && (l.commit == w.commits ==> l.rows == w.rows)
  }

  ghost predicate CallOk(w: World, call: Call) {
    && PlainRequest(call.slots, call.platform) && call.asked <= w.now
    && (call.stamp.Some? ==> call.asked <= call.stamp.value.at && StampOk(w, call.stamp.value, call.slots))
    && (call.listing.Some? ==>
         call.stamp.Some? && ListingOk(w, call.listing.value, call.stamp.value, call.slots, call.platform))
  }

  ghost predicate KeptFor(w: World, key: string, slots: seq<string>, platform: string) {
    && key in w.cache && key in w.origins && PlainRequest(slots, platform) && key == Key(slots, platform)
    && var o := w.origins[key];
       && w.cache[key] == EntryOf(w.cache[key].created, o) && w.cache[key].created <= o.stamp.at
       && StampOk(w, o.stamp, slots) && ListingOk(w, o.listing, o.stamp, slots, platform)
  }

  ghost predicate Traced(w: World) {
    && RowsOk(w.rows.placed)
    && (forall key :: key in w.cache ==> exists slots, platform :: KeptFor(w, key, slots, platform))
    && (forall i :: 0 <= i < |w.calls| ==> CallOk(w, w.calls[i]))
  }

  /** Platforms come without ':' and slots without ','; the unique constraints hold of what is committed. */
  ghost predicate Proper(e: Event) {
    match e
    case Asks(slots, platform, _) => slots == [] || PlainRequest(slots, platform)
    case Commits(rows) => RowsOk(rows.placed)
    case _ => true
  }

  lemma CallStays(w: World, w': World, call: Call)
    requires CallOk(w, call) && w.now <= w'.now && w.commits <= w'.commits && (w.commits == w'.commits ==> w.rows == w'.rows)
    ensures CallOk(w', call)
  {
    hide Version, NextChange, Contents, RowsOk, PlainRequest;
  }

  lemma EntryStays(w: World, w': World, key: string, slots: seq<string>, platform: string)
    requires KeptFor(w, key, slots, platform)
    requires key in w'.cache && key in w'.origins && w'.cache[key] == w.cache[key] && w'.origins[key] == w.origins[key]
    requires w.now <= w'.now && w.commits <= w'.commits && (w.commits == w'.commits ==> w.rows == w'.rows)
    ensures KeptFor(w', key, slots, platform)
  {
    hide Version, NextChange, Contents, RowsOk, PlainRequest, Key;
  }

  lemma StepCall(w: World, e: Event, call: Call)
    requires Traced(w) && Proper(e) && call in Step(w, e).calls
    ensures CallOk(Step(w, e), call)
  {
    hide Version, NextChange, Contents, RowsOk, PlainRequest, Key;
    var w' := Step(w, e);
    if call in w.calls {
      CallStays(w, w', call);
    }
  }

  lemma StoredIsKept(w: World, i: nat)
    requires Traced(w) && CanStore(w, i)
    ensures var w' := Step(w, Stores(i)); KeptFor(w', KeyOf(w.calls[i]), w.calls[i].slots, w.calls[i].platform)
  {
    hide Version, NextChange, Contents, RowsOk, PlainRequest, Key;
    assert CallOk(w, w.calls[i]);
  }

  lemma StepEntry(w: World, e: Event, key: string)
    requires Traced(w) && key in Step(w, e).cache
    ensures exists slots, platform :: KeptFor(Step(w, e), key, slots, platform)
  {
    hide Version, NextChange, Contents, RowsOk, PlainRequest, Key, KeptFor, CallOk;
    var w' := Step(w, e);
    if e.Stores? && CanStore(w, e.i) && key == KeyOf(w.calls[e.i]) {
      StoredIsKept(w, e.i);
    } else {
      var slots, platform :| KeptFor(w, key, slots, platform);
      KeptInBoth(w, key, slots, platform);
      EntryStays(w, w', key, slots, platform);
    }
  }

  lemma KeptInBoth(w: World, key: string, slots: seq<string>, platform: string)
    requires KeptFor(w, key, slots, platform)
    ensures key in w.cache && key in w.origins
  {
  }

  lemma StepTraced(w: World, e: Event)
    requires Traced(w) && Proper(e)
    ensures Traced(Step(w, e))
  {
    hide KeptFor, CallOk, RowsOk, Key, Usable;
    var w' := Step(w, e);
    forall key | key in w'.cache
      ensures exists slots, platform :: KeptFor(w', key, slots, platform)
    {
      StepEntry(w, e, key);
    }
    forall i | 0 <= i < |w'.calls|
      ensures CallOk(w', w'.calls[i])
    {
      StepCall(w, e, w'.calls[i]);
    }
  }

  lemma {:induction false} RunTraced(w: World, es: seq<Event>)
    requires Traced(w) && forall i :: 0 <= i < |es| ==> Proper(es[i])
    ensures Traced(Run(w, es))
    decreases es
  {
    hide Traced, Proper, Step;
    if es != [] {
      assert Proper(es[0]) && forall i :: 0 <= i < |es[1..]| ==> es[1..][i] == es[i + 1];
      StepTraced(w, es[0]);
      RunTraced(Step(w, es[0]), es[1..]);
    }
  }

  // ---------- when a cached answer agrees ----------

  function Opening(rows: Rows, now: int): World {
    World(map[], map[], rows, 0, [], now)
  }

  /** The cache answers the request at that time. */
  predicate Hits(w: World, slots: seq<string>, platform: string, c: Clock) {
    && slots != [] && w.now <= c.asked <= c.checked
    && Key(slots, platform) in w.cache && Usable(w.cache[Key(slots, platform)], c)
  }

  /** The answer is the one computed from scratch at the time the entry was checked. */
  predicate Agrees(w: World, slots: seq<string>, platform: string, current: int, c: Clock)
    requires slots != []
  {
    Get(w.cache, w.rows, slots, platform, current, c).1 == FreshAnswer(w.rows, slots, platform, current, c.checked)
  }

  lemma KeptForRequest(w: World, slots: seq<string>, platform: string)
    requires Traced(w) && PlainRequest(slots, platform) && Key(slots, platform) in w.cache
    ensures KeptFor(w, Key(slots, platform), slots, platform)
  {
    hide KeptFor, CallOk, RowsOk, Key;
    var slots', platform' :| KeptFor(w, Key(slots, platform), slots', platform');
    KeptPlain(w, Key(slots, platform), slots', platform');
    KeyInjective(slots, platform, slots', platform');
  }

  lemma KeptPlain(w: World, key: string, slots: seq<string>, platform: string)
    requires KeptFor(w, key, slots, platform)
    ensures PlainRequest(slots, platform) && key == Key(slots, platform)
  {
  }

  /** An entry's answer is what the rows it was read from give, the version by now, the creatives when they were filtered. */
  lemma AnswerOfEntry(w: World, slots: seq<string>, platform: string, current: int, c: Clock)
    requires Traced(w) && PlainRequest(slots, platform) && Hits(w, slots, platform, c)
    requires Key(slots, platform) in w.origins
    ensures var key := Key(slots, platform);
            var e, o := w.cache[key], w.origins[key];
            Agrees(w, slots, platform, current, c) <==>
            && Version(o.stamp.rows, slots, c.checked) == Version(w.rows, slots, c.checked)
            && (Hidden(current, e.version) ||
                ActiveBySlot(o.listing.rows.placed, slots, platform, e.filtered) ==
                ActiveBySlot(w.rows.placed, slots, platform, c.checked))
  {
    KeptForRequest(w, slots, platform);
    hide Traced, RowsOk, Key, ActiveBySlot, Version, NextChange, PlainRequest;
    VersionStays(w.origins[Key(slots, platform)].stamp.rows, slots, w.cache[Key(slots, platform)].versioned, c.checked);
  }

  /**
   After any run, whatever came between the steps of calls and edits: a cached answer
   of an entry read since the last commit is the one computed from scratch, exactly
   unless a creative slipped; that of an older entry is exactly if the version now is
   that of the rows then, and the creatives seen then are the ones active now.
   */
  lemma CacheAgrees(rows: Rows, now: int, es: seq<Event>, slots: seq<string>, platform: string, current: int, c: Clock)
    requires RowsOk(rows.placed) && PlainRequest(slots, platform) && forall i :: 0 <= i < |es| ==> Proper(es[i])
    requires Hits(Run(Opening(rows, now), es), slots, platform, c)
    ensures var w := Run(Opening(rows, now), es);
            var key := Key(slots, platform);
            && key in w.origins
            && var e, o := w.cache[key], w.origins[key];
               Agrees(w, slots, platform, current, c) <==>
               if o.stamp.commit == w.commits then
                 Hidden(current, e.version) || !Slipped(w.rows, slots, platform, e.versioned, e.filtered, c.checked)
               else
                 && Version(o.stamp.rows, slots, c.checked) == Version(w.rows, slots, c.checked)
                 && (Hidden(current, e.version) ||
                     ActiveBySlot(o.listing.rows.placed, slots, platform, e.filtered) ==
                     ActiveBySlot(w.rows.placed, slots, platform, c.checked))
  {
    var w := Run(Opening(rows, now), es);
    assert Traced(Opening(rows, now));
    RunTraced(Opening(rows, now), es);
    hide Run;
    AgreesExactly(w, slots, platform, current, c);
  }

  lemma AgreesExactly(w: World, slots: seq<string>, platform: string, current: int, c: Clock)
    requires Traced(w) && PlainRequest(slots, platform) && Hits(w, slots, platform, c)
    ensures var key := Key(slots, platform);
            && key in w.origins
            && var e, o := w.cache[key], w.origins[key];
               Agrees(w, slots, platform, current, c) <==>
               if o.stamp.commit == w.commits then
                 Hidden(current, e.version) || !Slipped(w.rows, slots, platform, e.versioned, e.filtered, c.checked)
               else
                 && Version(o.stamp.rows, slots, c.checked) == Version(w.rows, slots, c.checked)
                 && (Hidden(current, e.version) ||
                     ActiveBySlot(o.listing.rows.placed, slots, platform, e.filtered) ==
                     ActiveBySlot(w.rows.placed, slots, platform, c.checked))
  {
    var key := Key(slots, platform);
    KeptForRequest(w, slots, platform);
    AnswerOfEntry(w, slots, platform, current, c);
    hide RowsOk, Key, ActiveBySlot, Version, NextChange, PlainRequest, Slipped, Agrees;
    var e, o := w.cache[key], w.origins[key];
    if o.stamp.commit == w.commits {
      PayloadStaysExactly(w.rows, slots, platform, e.versioned, e.filtered, c.checked);
    }
  }

  /**
   An older entry whose version and creatives come from one state of the rows, and
   that did not slip, agrees exactly when the commits since change no answer to the
   request.
   */
  lemma CommitsMatter(w: World, slots: seq<string>, platform: string, current: int, c: Clock)
    requires Traced(w) && PlainRequest(slots, platform) && Hits(w, slots, platform, c)
    requires Key(slots, platform) in w.origins
    requires var o := w.origins[Key(slots, platform)];
             && o.stamp.commit == o.listing.commit
             && !Slipped(o.stamp.rows, slots, platform, o.stamp.at, o.listing.at, c.checked)
    ensures var o := w.origins[Key(slots, platform)];
            Agrees(w, slots, platform, current, c) <==>
            FreshAnswer(o.stamp.rows, slots, platform, current, c.checked) ==
            FreshAnswer(w.rows, slots, platform, current, c.checked)
  {
    var key := Key(slots, platform);
    KeptForRequest(w, slots, platform);
    var e, o := w.cache[key], w.origins[key];
    hide RowsOk, Key, ActiveBySlot, Version, NextChange, PlainRequest, Slipped;
    VersionStays(o.stamp.rows, slots, e.versioned, c.checked);
    PayloadStaysExactly(o.stamp.rows, slots, platform, e.versioned, e.filtered, c.checked);
  }

  // ---------- commits that stamp their rows ----------

  /** Some row was stamped in a later second than the version says. */
  predicate Newer(rows: Rows, version: int) {
    exists x :: x in rows.stamps && WholeSeconds(x) > version
  }

  /** The commit stamps a row in a later second than every version cached or in flight. */
  ghost predicate Outdates(w: World, rows: Rows) {
    && (forall key :: key in w.cache ==> Newer(rows, w.cache[key].version))
    && (forall i :: 0 <= i < |w.calls| && w.calls[i].stamp.Some? ==> Newer(rows, w.calls[i].stamp.value.version))
  }

  ghost predicate Stamping(w: World, es: seq<Event>)
    decreases es
  {
    es != [] ==> (es[0].Commits? ==> Outdates(w, es[0].rows)) && Stamping(Step(w, es[0]), es[1..])
  }

  /** Whatever was read before the last commit has a version from before it. */
  ghost predicate Outdated(w: World) {
    && (forall key :: key in w.cache && key in w.origins && w.origins[key].stamp.commit < w.commits ==>
          Newer(w.rows, w.cache[key].version))
    && (forall i :: 0 <= i < |w.calls| && w.calls[i].stamp.Some? && w.calls[i].stamp.value.commit < w.commits ==>
          Newer(w.rows, w.calls[i].stamp.value.version))
  }

  lemma StepOutdated(w: World, e: Event)
    requires Outdated(w) && (e.Commits? ==> Outdates(w, e.rows))
    ensures Outdated(Step(w, e))
  {
    hide Newer, Version, NextChange, Contents, Key, Usable;
  }

  lemma {:induction false} RunOutdated(w: World, es: seq<Event>)
    requires Outdated(w) && Stamping(w, es)
    ensures Outdated(Run(w, es))
    decreases es
  {
    hide Outdated, Outdates, Step;
    if es != [] {
      StepOutdated(w, es[0]);
      RunOutdated(Step(w, es[0]), es[1..]);
    }
  }

  lemma NewerVersion(rows: Rows, slots: seq<string>, version: int, t: int)
    requires Newer(rows, version)
    ensures Version(rows, slots, t) > version
  {
    var x :| x in rows.stamps && WholeSeconds(x) > version;
    assert x in rows.stamps + UpTo(Instants(rows.placed, slots), t);
    hide Instants, UpTo;
  }

  /**
   When every commit stamps a row in a later second, a cached answer agrees exactly
   when its entry was read since the last commit and the answer hides its creatives
   or none slipped.
   */
  lemma StampedCacheAgrees(rows: Rows, now: int, es: seq<Event>, slots: seq<string>, platform: string, current: int, c: Clock)
    requires RowsOk(rows.placed) && PlainRequest(slots, platform) && forall i :: 0 <= i < |es| ==> Proper(es[i])
    requires Stamping(Opening(rows, now), es)
    requires Hits(Run(Opening(rows, now), es), slots, platform, c)
    ensures var w := Run(Opening(rows, now), es);
            var key := Key(slots, platform);
            && key in w.origins
            && var e, o := w.cache[key], w.origins[key];
               Agrees(w, slots, platform, current, c) <==>
               o.stamp.commit == w.commits &&
               (Hidden(current, e.version) || !Slipped(w.rows, slots, platform, e.versioned, e.filtered, c.checked))
  {
    var w := Run(Opening(rows, now), es);
    assert Traced(Opening(rows, now)) && Outdated(Opening(rows, now));
    RunTraced(Opening(rows, now), es);
    RunOutdated(Opening(rows, now), es);
    hide Run, Stamping;
    AgreesExactly(w, slots, platform, current, c);
    var key := Key(slots, platform);
    KeptForRequest(w, slots, platform);
    var e, o := w.cache[key], w.origins[key];
    hide RowsOk, Key, ActiveBySlot, Version, NextChange, PlainRequest, Slipped, Agrees, Newer;
    VersionStays(o.stamp.rows, slots, e.versioned, c.checked);
    if o.stamp.commit < w.commits {
      NewerVersion(w.rows, slots, e.version, c.checked);
    }
  }

  // ---------- an invalidation before the commit ----------

  /** Some call for the key stores its entry during the run. */
  predicate StoresFor(w: World, es: seq<Event>, key: string)
    decreases es
  {
    es != [] &&
    ((es[0].Stores? && CanStore(w, es[0].i) && KeyOf(w.calls[es[0].i]) == key) || StoresFor(Step(w, es[0]), es[1..], key))
  }

  /** Everything cached or in flight was asked for and read since then, at the same commit. */
  ghost predicate ReadSince(w: World, start: int, commit: nat) {
    && w.commits == commit && start <= w.now
    && (forall key :: key in w.cache ==>
         key in w.origins && w.cache[key].created >= start && w.origins[key].stamp.commit == commit)
    && (forall i :: 0 <= i < |w.calls| ==>
         w.calls[i].asked >= start && (w.calls[i].stamp.Some? ==> w.calls[i].stamp.value.commit == commit))
  }

  predicate Quiet(es: seq<Event>) {
    forall i :: 0 <= i < |es| ==> !es[i].Commits? && !es[i].Invalidates?
  }

  lemma QuietStep(w: World, e: Event, start: int, commit: nat, key: string)
    requires ReadSince(w, start, commit) && !e.Commits? && !e.Invalidates?
    ensures ReadSince(Step(w, e), start, commit) && Step(w, e).rows == w.rows
    ensures key in Step(w, e).cache <==>
            key in w.cache || (e.Stores? && CanStore(w, e.i) && KeyOf(w.calls[e.i]) == key)
  {
    hide Version, NextChange, Contents, Key, Usable;
  }

  lemma {:induction false} QuietRun(w: World, es: seq<Event>, start: int, commit: nat, key: string)
    requires ReadSince(w, start, commit) && Quiet(es)
    ensures ReadSince(Run(w, es), start, commit) && Run(w, es).rows == w.rows
    ensures key in Run(w, es).cache <==> key in w.cache || StoresFor(w, es, key)
    decreases es
  {
    hide ReadSince, Step, KeyOf, CanStore;
    if es != [] {
      assert !es[0].Commits? && !es[0].Invalidates? && forall i :: 0 <= i < |es[1..]| ==> es[1..][i] == es[i + 1];
      QuietStep(w, es[0], start, commit, key);
      QuietRun(Step(w, es[0]), es[1..], start, commit, key);
    }
  }

  /** No creative of the request starts or ends in the interval. */
  ghost predicate Still(rows: Rows, slots: seq<string>, from_: int, to: int) {
    forall x :: x in Instants(rows.placed, slots) ==> !(from_ <= x <= to)
  }

  lemma StillFacts(rows: Rows, slots: seq<string>, platform: string, from_: int, at: int, filtered: int, t: int)
    requires Still(rows, slots, from_, t) && from_ <= at <= filtered <= t
    ensures NextChange(rows, slots, at).Some? ==> t < NextChange(rows, slots, at).value
    ensures !Slipped(rows, slots, platform, at, filtered, t)
  {
    hide ActiveBySlot, Active, OnPlatform;
    if EndsNow(rows.placed, slots, platform, filtered) {
      var i :| 0 <= i < |rows.placed| && rows.placed[i].slot in slots && Active(rows.placed[i].creative, platform, filtered) &&
               rows.placed[i].creative.end == Some(filtered);
      InstantsOf(rows.placed, slots, i);
    }
  }

  /** What the cache then holds for the key answers like the old rows. */
  lemma HeldAnswersOld(w: World, start: int, slots: seq<string>, platform: string, current: int, t: int)
    requires Traced(w) && ReadSince(w, start, w.commits) && PlainRequest(slots, platform)
    requires Key(slots, platform) in w.cache && Still(w.rows, slots, start, t) && w.now <= t < start + CACHE_TTL
    ensures Usable(w.cache[Key(slots, platform)], Clock(t, t, t, t))
    ensures var e := w.cache[Key(slots, platform)];
            Answer(current, e.version, e.payload) == FreshAnswer(w.rows, slots, platform, current, t)
  {
    var key, c := Key(slots, platform), Clock(t, t, t, t);
    KeptForRequest(w, slots, platform);
    var e := w.cache[key];
    StillFacts(w.rows, slots, platform, start, e.versioned, e.filtered, t);
    AgreesExactly(w, slots, platform, current, c);
  }

  lemma MissIsFresh(cache: map<string, Entry>, rows: Rows, slots: seq<string>, platform: string, current: int, t: int)
    requires slots != [] && Key(slots, platform) !in cache
    ensures Get(cache, rows, slots, platform, current, Clock(t, t, t, t)).1 == FreshAnswer(rows, slots, platform, current, t)
  {
  }

  /**
   The edit's method invalidates, the route commits.  From an emptied cache, whatever
   calls come before the commit, and while no creative of the request starts or ends
   and no lifetime is over: if the commit changes the answer, the new one is given
   exactly when no call for that request was stored in between.
   */
  lemma EarlyInvalidationExactly(w: World, es: seq<Event>, after: Rows, slots: seq<string>, platform: string, current: int, t: int)
    requires Traced(w) && w.cache == map[] && w.calls == []
    requires Quiet(es) && forall i :: 0 <= i < |es| ==> Proper(es[i])
    requires PlainRequest(slots, platform) && RowsOk(after.placed)
    requires Run(w, es).now <= t < w.now + CACHE_TTL && Still(w.rows, slots, w.now, t)
    requires FreshAnswer(w.rows, slots, platform, current, t) != FreshAnswer(after, slots, platform, current, t)
    ensures var committed := Step(Run(w, es), Commits(after));
            Get(committed.cache, committed.rows, slots, platform, current, Clock(t, t, t, t)).1 ==
            FreshAnswer(after, slots, platform, current, t) <==>
            !StoresFor(w, es, Key(slots, platform))
  {
    var v := Run(w, es);
    QuietRun(w, es, w.now, w.commits, Key(slots, platform));
    RunTraced(w, es);
    hide Run, StoresFor, Traced, ReadSince, FreshAnswer, Key, PlainRequest, Still, Usable, Contents;
    SomeSlot(slots, platform);
    if Key(slots, platform) in v.cache {
      ReadHere(v, w.now, w.commits);
      HeldAnswersOld(v, w.now, slots, platform, current, t);
    } else {
      MissIsFresh(v.cache, after, slots, platform, current, t);
    }
  }

  lemma SomeSlot(slots: seq<string>, platform: string)
    requires PlainRequest(slots, platform)
    ensures slots != []
  {
  }

  lemma ReadHere(w: World, start: int, commit: nat)
    requires ReadSince(w, start, commit)
    ensures w.commits == commit
  {
  }

  // ---------- both faults, by example ----------

  function Banner(enabled: bool, start: Option<int>): Row {
    Row("home", 1, Creative(7, enabled, start, None, [], 100, "sale"))
  }

  function Call1(): seq<Event> {
    [Asks(["home"], "miniapp", 0), Versions(0), Filters(0), Stores(0)]
  }

  const SALE: Rows := Rows([Banner(true, None)], [SECOND])
  const NO_SALE: Rows := Rows([Banner(false, None)], [2 * SECOND])
  const LATER_SALE: Rows := Rows([Banner(true, Some(10 * SECOND))], [2 * SECOND])

  lemma SortOne(xs: seq<Item>)
    requires |xs| <= 1
    ensures Sort(Precedes, xs) == xs
  {
    if |xs| == 1 {
      assert xs[1..] == [] && xs == [xs[0]];
      assert Sort(Precedes, xs[1..]) == [];
    }
  }

  lemma BannerShown(row: Row, platform: string, now: int)
    requires row.slot == "home"
    ensures ActiveBySlot([row], ["home"], platform, now) ==
            map["home" := if Active(row.creative, platform, now) then [ItemOf(row)] else []]
  {
    var xs := Shown([row], "home", platform, now);
    assert [row][..0] == [];
    assert xs == Shown([], "home", platform, now) + if Active(row.creative, platform, now) then [ItemOf(row)] else [];
    assert xs == if Active(row.creative, platform, now) then [ItemOf(row)] else [];
    assert "home" in ["home"];
    SortOne(xs);
    hide Sort, Shown;
    var m := ActiveBySlot([row], ["home"], platform, now);
    assert m.Keys == {"home"} && m["home"] == Sort(Precedes, xs);
    assert m == map["home" := xs];
  }

  lemma NoInstants(row: Row, stamp: int, now: int)
    requires row.creative.start.None? && row.creative.end.None? && stamp >= 0
    ensures var rows := Rows([row], [stamp]);
            && Instants(rows.placed, ["home"]) == [] && NextChange(rows, ["home"], now) == None
            && Version(rows, ["home"], now) == stamp / SECOND
  {
    assert [row][..0] == [] && [stamp] + [] == [stamp];
    assert Instants([row], ["home"]) == Instants([], ["home"]) + [];
  }

  /** A banner is switched off; a call between the invalidation and the commit keeps it shown. */
  lemma EarlyInvalidationServesOld()
    ensures var committed := Step(Run(Opening(SALE, 0), Call1()), Commits(NO_SALE));
            var t := 5 * SECOND;
            && Get(committed.cache, NO_SALE, ["home"], "miniapp", 0, Clock(t, t, t, t)).1 ==
               Reply(1, map["home" := [Item(7, "sale", 100, 1)]])
            && FreshAnswer(NO_SALE, ["home"], "miniapp", 0, t) == Reply(2, map["home" := []])
  {
    var t := 5 * SECOND;
    var on, off := Banner(true, None), Banner(false, None);
    NoInstants(on, SECOND, 0);
    NoInstants(off, 2 * SECOND, t);
    BannerShown(on, "miniapp", 0);
    BannerShown(off, "miniapp", t);
    hide Version, NextChange, ActiveBySlot, Key;
    var w := Opening(SALE, 0);
    var es := Call1();
    RunOfTwo(w, es);
    RunOfTwo(Step(Step(w, es[0]), es[1]), es[2..]);
    assert es[2..][2..] == [];
  }

  lemma LateVersions(t: int)
    requires t >= 10 * SECOND
    ensures Version(LATER_SALE, ["home"], t) == 10
  {
    var xs := [10 * SECOND];
    assert LATER_SALE.placed[..0] == [] && xs[..0] == [];
    assert Instants(LATER_SALE.placed, ["home"]) == Instants([], ["home"]) + xs == xs;
    assert UpTo(xs, t) == UpTo([], t) + xs == xs;
    assert 10 * SECOND in [2 * SECOND] + xs;
  }

  const OVERTAKEN: seq<Event> :=
    [Asks(["home"], "miniapp", 0), Versions(0), Invalidates, Commits(LATER_SALE), Filters(0), Stores(0)]

  lemma OvertakenEntry()
    ensures var w := Run(Opening(SALE, 0), OVERTAKEN);
            && w.rows == LATER_SALE
            && w.cache == map[Key(["home"], "miniapp") := Entry(0, 1, map["home" := []], None, 0, 0)]
  {
    NoInstants(Banner(true, None), SECOND, 0);
    BannerShown(Banner(true, Some(10 * SECOND)), "miniapp", 0);
    hide Version, NextChange, ActiveBySlot, Key;
    var es, w := OVERTAKEN, Opening(SALE, 0);
    var w2 := Step(Step(w, es[0]), es[1]);
    var s := Stamp(1, None, 0, SALE, 0);
    assert w2.calls == [Call(["home"], "miniapp", 0, Some(s), None)];
    var w4 := Step(Step(w2, es[2]), es[3]);
    var w6 := Step(Step(w4, es[4]), es[5]);
    assert w6.cache == map[][Key(["home"], "miniapp") := EntryOf(0, Origin(s, ListNow(w4, w2.calls[0], s)))];
    hide Step;
    RunOfTwo(w, es);
    RunOfTwo(w2, es[2..]);
    assert es[2..][2..] == es[4..];
    RunOfTwo(w4, es[4..]);
    assert es[4..][2..] == [];
  }

  /** A banner's start is moved while a call is between its two reads; the entry never learns of the start. */
  lemma OvertakenCallServesOld()
    ensures var w := Run(Opening(SALE, 0), OVERTAKEN);
            var t := 20 * SECOND;
            && Get(w.cache, w.rows, ["home"], "miniapp", 0, Clock(t, t, t, t)).1 == Reply(1, map["home" := []])
            && FreshAnswer(w.rows, ["home"], "miniapp", 0, t) == Reply(10, map["home" := [Item(7, "sale", 100, 1)]])
  {
    var t := 20 * SECOND;
    OvertakenEntry();
    LateVersions(t);
    BannerShown(Banner(true, Some(10 * SECOND)), "miniapp", t);
    hide Run, Version, NextChange, ActiveBySlot, Key;
  }
}
