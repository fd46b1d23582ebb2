/**
 Runs of the menu cache in which calls, edits and invalidations interleave, Redis
 being reachable: when the answers agree with the catalog, and when they do not.
 */
module MenuRuns {
  import opened Wrappers
  import opened MenuCache

  // ---------- calls in flight ----------

  /**
   A call that found nothing cached: the version it saw, what the queries of its
   rebuild returned, and whether it has written its process's entry.
   */
  datatype Call = Call(p: int, seen: Option<int>, built: Option<Menu>, kept: bool)

  /**
   One call is up to five steps.  `Builds` leaves open what a rebuild's queries
   return together.  A watched edit invalidates in the same step; an unwatched one
   (a price, a name) does not.
   */
  datatype Event =
    | Asks(p: int)
    | Builds(i: nat, payload: Menu)
    | Fetches(i: nat)
    | Keeps(i: nat)
    | Publishes(i: nat)
    | Edits(p: int, menu: Menu, watched: bool)
    | Ticks(d: nat)
    | Expires

  /** The caches, the calls in flight, and every menu that was current since the last invalidation. */
  datatype World = World(caches: Caches, calls: seq<Call>, since: set<Menu>)

  predicate CanKeep(w: World, i: nat) {
    i < |w.calls| && w.calls[i].built.Some? && w.calls[i].seen.Some? && !w.calls[i].kept
  }

  predicate CanPublish(w: World, i: nat) {
    i < |w.calls| && w.calls[i].built.Some? && w.calls[i].seen.Some? && w.calls[i].kept
  }

  function Step(w: World, e: Event, ttl: int): World {
    var c, calls := w.caches, w.calls;
    match e
    case Asks(p) =>
      var (c', found, seen) := Load(c, p, ttl);
      w.(caches := c', calls := if found.Some? then calls else calls + [Call(p, seen, None, false)])
    case Builds(i, payload) =>
      if i < |calls| && calls[i].built.None? then w.(calls := calls[i := calls[i].(built := Some(payload))]) else w
    case Fetches(i) =>
      if i < |calls| && calls[i].built.Some? && calls[i].seen.None? then
        var (c', version) := Fetch(c, calls[i].p);
        w.(caches := c', calls := calls[i := calls[i].(seen := version)])
      else w
    case Keeps(i) =>
      if CanKeep(w, i) then
        w.(caches := StoreLocal(c, calls[i].p, calls[i].built.value, calls[i].seen, ttl),
           calls := calls[i := calls[i].(kept := true)])
      else w
    case Publishes(i) =>
      if CanPublish(w, i) then
        w.(caches := WriteRemote(c, calls[i].built.value, calls[i].seen, ttl), calls := calls[..i] + calls[i + 1..])
      else w
    case Edits(p, menu, watched) =>
      if watched then World(Invalidate(c.(menu := menu), p), calls, {menu})
      else w.(caches := c.(menu := menu), since := w.since + {menu})
    case Ticks(d) => w.(caches := c.(now := c.now + d))
    case Expires => w.(caches := c.(remote := None))
  }

  function Run(w: World, es: seq<Event>, ttl: int): World
    decreases es
  {
    if es == [] then w else Run(Step(w, es[0], ttl), es[1..], ttl)
  }

  // ---------- what every step keeps, but for late writes ----------

  /** No entry and no call is from a later version than the counter, which only a flush of Redis could lower. */
  ghost predicate VersionsOk(c: Caches, calls: seq<Call>) {
    && c.untracked == {}
    && (forall p :: p in c.locals ==>
         c.locals[p].version.Some? && c.version.Some? && c.locals[p].version.value <= c.version.value)
    && (c.remote.Some? ==> c.version.Some? && c.remote.value.version <= c.version.value)
    && (forall i :: 0 <= i < |calls| && calls[i].seen.Some? ==> c.version.Some? && calls[i].seen.value <= c.version.value)
  }

  /** The remote payload, and whatever carries the current version, was current since the last invalidation. */
  ghost predicate Coherent(w: World) {
    var c := w.caches;
    && VersionsOk(c, w.calls) && c.menu in w.since
    && (forall p :: p in c.locals && c.locals[p].version == c.version ==> c.locals[p].payload in w.since)
    && (c.remote.Some? ==> c.remote.value.payload in w.since)
  }

  /**
   The step caches a payload that was not current since the last invalidation, in an
   entry under the current version or in Redis under any.
   */
  predicate Late(w: World, e: Event) {
    || (e.Keeps? && CanKeep(w, e.i) && w.calls[e.i].seen == w.caches.version && w.calls[e.i].built.value !in w.since)
    || (e.Publishes? && CanPublish(w, e.i) && w.calls[e.i].built.value !in w.since)
  }

  lemma LoadCoherent(w: World, p: int, ttl: int)
    requires Coherent(w)
    ensures var (c, found, seen) := Load(w.caches, p, ttl);
            && Coherent(w.(caches := c)) && c.menu == w.caches.menu
            && (found.Some? ==> found.value in w.since)
            && (seen.Some? ==> seen == c.version)
  {
  }

  lemma StepCoherent(w: World, e: Event, ttl: int)
    requires Coherent(w) && !Late(w, e)
    ensures Coherent(Step(w, e, ttl))
  {
    hide Load;
    match e {
      case Asks(p) =>
        LoadCoherent(w, p, ttl);
      case _ =>
    }
  }

  /** What an undisturbed call by `q` would be answered now. */
  function Answer(w: World, q: int, ttl: int): Menu {
    Get(w.caches, q, ttl).1
  }

  lemma CoherentAnswers(w: World, q: int, ttl: int)
    requires Coherent(w)
    ensures Answer(w, q, ttl) in w.since
  {
    LoadCoherent(w, q, ttl);
  }

  lemma Member<T>(s: set<T>) returns (x: T)
    requires s != {}
    ensures x in s
  {
    x :| x in s;
  }

  lemma {:induction false} SomeProcess(known: set<int>) returns (q: int)
    ensures forall p :: p in known ==> p < q
    decreases known
  {
    if known == {} {
      q := 0;
    } else {
      var p := Member(known);
      var above := SomeProcess(known - {p});
      q := if p < above then above else p + 1;
      forall x: int | x in known
        ensures x < q
      {
        assert x == p || x in known - {p};
      }
    }
  }

  /** A late write is served at once: an entry to its own process, a remote payload to one without an entry. */
  lemma LateIsServed(w: World, e: Event, ttl: int) returns (q: int)
    requires Coherent(w) && Late(w, e)
    ensures Answer(Step(w, e, ttl), q, ttl) !in Step(w, e, ttl).since
  {
    if e.Keeps? {
      q := w.calls[e.i].p;
    } else {
      q := SomeProcess(w.caches.locals.Keys);
    }
  }

  // ---------- whole runs ----------

  /** Before and after every event, every process is answered a menu that was current since the last invalidation. */
  ghost predicate AlwaysSince(w: World, es: seq<Event>, ttl: int)
    decreases es
  {
    && (forall q :: Answer(w, q, ttl) in w.since)
    && (es != [] ==> AlwaysSince(Step(w, es[0], ttl), es[1..], ttl))
  }

  predicate NeverLate(w: World, es: seq<Event>, ttl: int)
    decreases es
  {
    es != [] ==> !Late(w, es[0]) && NeverLate(Step(w, es[0], ttl), es[1..], ttl)
  }

  /**
   Over any interleaving of calls, edits and invalidations: every answer was current
   since the last invalidation exactly when no step caches a payload from before it.
   */
  lemma {:induction false} AnswersExactly(w: World, es: seq<Event>, ttl: int)
    requires Coherent(w)
    ensures AlwaysSince(w, es, ttl) <==> NeverLate(w, es, ttl)
    decreases es
  {
    hide Coherent, Step, Answer, Late;
    forall q
      ensures Answer(w, q, ttl) in w.since
    {
      CoherentAnswers(w, q, ttl);
    }
    if es != [] {
      if Late(w, es[0]) {
        var q := LateIsServed(w, es[0], ttl);
      } else {
        StepCoherent(w, es[0], ttl);
        AnswersExactly(Step(w, es[0], ttl), es[1..], ttl);
      }
    }
  }

  predicate AllWatched(es: seq<Event>) {
    forall i :: 0 <= i < |es| && es[i].Edits? ==> es[i].watched
  }

  /** Before and after every event, every process is answered what a rebuild returns at that moment. */
  ghost predicate AlwaysCurrent(w: World, es: seq<Event>, ttl: int)
    decreases es
  {
    && (forall q :: Answer(w, q, ttl) == w.caches.menu)
    && (es != [] ==> AlwaysCurrent(Step(w, es[0], ttl), es[1..], ttl))
  }

  lemma WatchedStep(w: World, e: Event, ttl: int)
    requires w.since == {w.caches.menu} && (e.Edits? ==> e.watched)
    ensures Step(w, e, ttl).since == {Step(w, e, ttl).caches.menu}
  {
  }

  lemma {:induction false} CurrentIsSince(w: World, es: seq<Event>, ttl: int)
    requires w.since == {w.caches.menu} && AllWatched(es)
    ensures AlwaysCurrent(w, es, ttl) <==> AlwaysSince(w, es, ttl)
    decreases es
  {
    hide Step, Answer;
    if es != [] {
      WatchedStep(w, es[0], ttl);
      assert forall i :: 0 <= i < |es[1..]| ==> es[1..][i] == es[i + 1];
      CurrentIsSince(Step(w, es[0], ttl), es[1..], ttl);
    }
  }

  /**
   With every edit watched, every process is answered what a rebuild returns, at
   every point of the run, exactly when no step caches a payload from before an edit.
   */
  lemma GetAgreesWithRebuild(w: World, es: seq<Event>, ttl: int)
    requires Coherent(w) && w.since == {w.caches.menu} && AllWatched(es)
    ensures AlwaysCurrent(w, es, ttl) <==> NeverLate(w, es, ttl)
  {
    CurrentIsSince(w, es, ttl);
    AnswersExactly(w, es, ttl);
  }

  // ---------- runs without late writes ----------

  ghost predicate BuiltSince(w: World) {
    forall i :: 0 <= i < |w.calls| && w.calls[i].built.Some? ==> w.calls[i].built.value in w.since
  }

  /** Rebuilds return the menu of one moment, and no watched edit falls between a rebuild and its last write. */
  ghost predicate Undisturbed(w: World, es: seq<Event>, ttl: int)
    decreases es
  {
    es != [] ==>
      && (es[0].Builds? ==> es[0].payload == w.caches.menu)
      && (es[0].Edits? && es[0].watched ==> forall i :: 0 <= i < |w.calls| ==> w.calls[i].built.None?)
      && Undisturbed(Step(w, es[0], ttl), es[1..], ttl)
  }

  lemma UndisturbedStep(w: World, e: Event, ttl: int)
    requires Coherent(w) && BuiltSince(w)
    requires e.Builds? ==> e.payload == w.caches.menu
    requires e.Edits? && e.watched ==> forall i :: 0 <= i < |w.calls| ==> w.calls[i].built.None?
    ensures !Late(w, e) && BuiltSince(Step(w, e, ttl))
  {
  }

  /** Such runs have no late write. */
  lemma {:induction false} UndisturbedIsNeverLate(w: World, es: seq<Event>, ttl: int)
    requires Coherent(w) && BuiltSince(w) && Undisturbed(w, es, ttl)
    ensures NeverLate(w, es, ttl)
    decreases es
  {
    hide Coherent, BuiltSince, Step, Late;
    if es != [] {
      UndisturbedStep(w, es[0], ttl);
      StepCoherent(w, es[0], ttl);
      UndisturbedIsNeverLate(Step(w, es[0], ttl), es[1..], ttl);
    }
  }

  /** One call of a process that finds nothing cached, with a watched edit between its rebuild and its writes. */
  function OvertakenCall(new_: Menu, old_: Menu): seq<Event> {
    [Asks(1), Builds(0, old_), Edits(2, new_, true), Fetches(0), Keeps(0), Publishes(0)]
  }

  /** Every process is then answered the menu from before the edit. */
  lemma OvertakenCallServesOld(old_: Menu, new_: Menu, q: int, ttl: int)
    requires old_ != new_
    ensures var w := World(Caches(old_, map[], {}, Some(0), None, 0), [], {old_});
            var t := Run(w, OvertakenCall(new_, old_), ttl);
            Coherent(w) && t.caches.menu == new_ && Answer(t, q, ttl) == old_
  {
    var es := OvertakenCall(new_, old_);
    var w := World(Caches(old_, map[], {}, Some(0), None, 0), [], {old_});
    var w1 := Step(w, es[0], ttl);
    var w2 := Step(w1, es[1], ttl);
    var w3 := Step(w2, es[2], ttl);
    var w4 := Step(w3, es[3], ttl);
    var w5 := Step(w4, es[4], ttl);
    var w6 := Step(w5, es[5], ttl);
    RunOfSix(w, es, ttl);
  }

  lemma RunOfThree(w: World, es: seq<Event>, ttl: int)
    requires |es| >= 3
    ensures Run(w, es, ttl) == Run(Step(Step(Step(w, es[0], ttl), es[1], ttl), es[2], ttl), es[3..], ttl)
  {
    hide Step;
    assert es[1..][1..] == es[2..] && es[2..][1..] == es[3..];
    var w2 := Step(Step(w, es[0], ttl), es[1], ttl);
    assert Run(w, es, ttl) == Run(w2, es[2..], ttl);
  }

  lemma RunOfSix(w: World, es: seq<Event>, ttl: int)
    requires |es| == 6
    ensures Run(w, es, ttl) ==
            Step(Step(Step(Step(Step(Step(w, es[0], ttl), es[1], ttl), es[2], ttl), es[3], ttl), es[4], ttl), es[5], ttl)
  {
    hide Step;
    RunOfThree(w, es, ttl);
    RunOfThree(Step(Step(Step(w, es[0], ttl), es[1], ttl), es[2], ttl), es[3..], ttl);
    assert es[3..][3..] == [];
  }

  // ---------- after an invalidation ----------

  /** No edit, and every rebuild returns `menu`. */
  predicate Quiet(es: seq<Event>, menu: Menu) {
    forall i :: 0 <= i < |es| ==> !es[i].Edits? && (es[i].Builds? ==> es[i].payload == menu)
  }

  lemma StepLeavesMenu(w: World, e: Event, ttl: int)
    requires !e.Edits?
    ensures Step(w, e, ttl).caches.menu == w.caches.menu
  {
  }

  lemma {:induction false} QuietIsUndisturbed(w: World, es: seq<Event>, ttl: int)
    requires Quiet(es, w.caches.menu)
    ensures Undisturbed(w, es, ttl)
    decreases es
  {
    hide Step;
    if es != [] {
      assert !es[0].Edits? && forall i :: 0 <= i < |es[1..]| ==> es[1..][i] == es[i + 1];
      StepLeavesMenu(w, es[0], ttl);
      QuietIsUndisturbed(Step(w, es[0], ttl), es[1..], ttl);
    }
  }

  /** The rest of a call that has built its payload. */
  function Finish(i: nat): seq<Event> {
    [Fetches(i), Keeps(i), Publishes(i)]
  }

  lemma FinishIsLate(w: World, i: nat, ttl: int)
    requires Coherent(w) && i < |w.calls| && w.calls[i].built.Some? && w.calls[i].built.value !in w.since
    ensures !NeverLate(w, Finish(i), ttl)
  {
    var es := Finish(i);
    var w1 := Step(w, es[0], ttl);
    var w2 := Step(w1, es[1], ttl);
    assert es[1..] == [Keeps(i), Publishes(i)] && es[1..][1..] == [Publishes(i)];
    assert CanPublish(w2, i) && Late(w2, Publishes(i));
    assert !NeverLate(w2, es[1..][1..], ttl);
  }

  /**
   An invalidation that follows the commit heals the caches whatever they hold: all
   later answers are current, while nothing is edited, exactly when every call in
   flight that has built a payload built the current one.
   */
  lemma InvalidationHeals(c: Caches, calls: seq<Call>, p: int, ttl: int)
    requires VersionsOk(c, calls)
    ensures var w := World(Invalidate(c, p), calls, {c.menu});
            (forall es :: Quiet(es, c.menu) ==> AlwaysSince(w, es, ttl)) <==>
            (forall i :: 0 <= i < |calls| && calls[i].built.Some? ==> calls[i].built.value == c.menu)
  {
    var w := World(Invalidate(c, p), calls, {c.menu});
    assert Coherent(w);
    if forall i :: 0 <= i < |calls| && calls[i].built.Some? ==> calls[i].built.value == c.menu {
      forall es | Quiet(es, c.menu)
        ensures AlwaysSince(w, es, ttl)
      {
        QuietIsUndisturbed(w, es, ttl);
        UndisturbedIsNeverLate(w, es, ttl);
        AnswersExactly(w, es, ttl);
      }
    } else {
      var i :| 0 <= i < |calls| && calls[i].built.Some? && calls[i].built.value != c.menu;
      FinishIsLate(w, i, ttl);
      AnswersExactly(w, Finish(i), ttl);
      assert Quiet(Finish(i), c.menu);
    }
  }

  // ---------- an invalidation before the commit ----------

  /** Calls one after the other, each after some waiting. */
  function Asked(c: Caches, visits: seq<(int, nat)>, ttl: int): Caches
    decreases visits
  {
    if visits == [] then c
    else Asked(Get(c.(now := c.now + visits[0].1), visits[0].0, ttl).0, visits[1..], ttl)
  }

  function Elapsed(visits: seq<(int, nat)>): nat {
    if visits == [] then 0 else visits[0].1 + Elapsed(visits[1..])
  }

  /** Redis holds `old_` for at least `left` more, and so does every entry of the current version. */
  ghost predicate Holds(c: Caches, old_: Menu, left: int) {
    && VersionsOk(c, []) && c.menu == old_
    && c.remote.Some? && c.remote.value.payload == old_ && c.now + left <= c.remote.value.expires
    && (forall p :: p in c.locals && c.locals[p].version == c.version ==> c.locals[p].payload == old_)
  }

  lemma HeldIsServed(c: Caches, old_: Menu, left: int, d: nat, q: int, ttl: int, menu: Menu)
    requires Holds(c, old_, left) && d <= left
    ensures Get(c.(now := c.now + d, menu := menu), q, ttl).1 == old_
    ensures Holds(Get(c.(now := c.now + d), q, ttl).0, old_, left - d)
  {
  }

  lemma {:induction false} HeldThroughout(c: Caches, old_: Menu, left: int, visits: seq<(int, nat)>, ttl: int)
    requires Holds(c, old_, left) && Elapsed(visits) <= left
    ensures Holds(Asked(c, visits, ttl), old_, left - Elapsed(visits))
    decreases visits
  {
    hide Holds, Get;
    if visits != [] {
      var (p, d) := visits[0];
      HeldIsServed(c, old_, left, d, p, ttl, old_);
      HeldThroughout(Get(c.(now := c.now + d), p, ttl).0, old_, left - d, visits[1..], ttl);
    }
  }

  lemma FirstVisitHolds(c: Caches, p: int, d: nat, q: int, ttl: int)
    requires VersionsOk(c, [])
    ensures Holds(Get(Invalidate(c, p).(now := c.now + d), q, ttl).0, c.menu, RemoteTtl(ttl))
  {
  }

  lemma UnvisitedIsCurrent(c: Caches, p: int, d: nat, menu: Menu, q: int, ttl: int)
    requires VersionsOk(c, [])
    ensures Get(Invalidate(c, p).(now := c.now + d, menu := menu), q, ttl).1 == menu
  {
  }

  /**
   The listener fires when the attribute is set, before the commit.  Within a Redis
   lifetime of the invalidation, the committed menu is served exactly when no process
   asked in between: one that did stored the old menu under the new version.
   */
  lemma EarlyInvalidationExactly(c: Caches, p: int, visits: seq<(int, nat)>, gap: nat, new_: Menu, q: int, ttl: int)
    requires VersionsOk(c, []) && new_ != c.menu && Elapsed(visits) + gap <= RemoteTtl(ttl)
    ensures var t := Asked(Invalidate(c, p), visits, ttl);
            Get(t.(now := t.now + gap, menu := new_), q, ttl).1 == new_ <==> visits == []
  {
    hide Get, Holds, Invalidate, VersionsOk;
    InvalidateNow(c, p);
    if visits == [] {
      UnvisitedIsCurrent(c, p, gap, new_, q, ttl);
    } else {
      var (first, d) := visits[0];
      var c' := Get(Invalidate(c, p).(now := c.now + d), first, ttl).0;
      FirstVisitHolds(c, p, d, first, ttl);
      HeldThroughout(c', c.menu, RemoteTtl(ttl), visits[1..], ttl);
      var t := Asked(c', visits[1..], ttl);
      HeldIsServed(t, c.menu, RemoteTtl(ttl) - Elapsed(visits[1..]), gap, q, ttl, new_);
    }
  }

  lemma InvalidateNow(c: Caches, p: int)
    ensures Invalidate(c, p).now == c.now
  {
  }

  /** For one: process 1 invalidates, process 2 asks, the edit is committed, process 3 gets the old menu. */
  lemma EarlyInvalidationServesOld(old_: Menu, new_: Menu, ttl: int)
    requires old_ != new_
    ensures var asked := Asked(Invalidate(Caches(old_, map[], {}, Some(0), None, 0), 1), [(2, 0)], ttl);
            Get(asked.(menu := new_), 3, ttl).1 == old_
  {
    var c := Caches(old_, map[], {}, Some(0), None, 0);
    var asked := Asked(Invalidate(c, 1), [(2, 0)], ttl);
    FirstVisitHolds(c, 1, 0, 2, ttl);
    HeldThroughout(Get(Invalidate(c, 1), 2, ttl).0, old_, RemoteTtl(ttl), [], ttl);
    assert Invalidate(c, 1).(now := Invalidate(c, 1).now + 0) == Invalidate(c, 1);
    assert [(2, 0)][1..] == [];
    HeldIsServed(asked, old_, RemoteTtl(ttl), 0, 3, ttl, new_);
  }
}
