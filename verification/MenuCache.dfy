/**
 The two-level menu cache (app/services/menu.py): one entry per process, a payload
 and a version counter in Redis.
 */
module MenuCache {
  import opened Wrappers

  /** What a rebuild from the catalog rows returns. */
  type Menu = string

  /** A process's entry.  `stored` says when its payload entered the cache; the program keeps no such field. */
  datatype Local = Local(expires: int, version: Option<int>, payload: Menu, stored: int)

  datatype Remote = Remote(version: int, payload: Menu, expires: int, stored: int)

  /**
   `menu` is what a rebuild would return now; `untracked` are the processes whose
   Redis access failed once and was switched off.
   */
  datatype Caches = Caches(menu: Menu, locals: map<int, Local>, untracked: set<int>,
                           version: Option<int>, remote: Option<Remote>, now: int)

  function LocalTtl(ttl: int): int { Max(ttl, 0) * SECOND }

  function RemoteTtl(ttl: int): int { Max(ttl, 1) * SECOND }

  // ---------- one call ----------

  /** Reading the version creates it. */
  function Fetch(c: Caches, p: int): (Caches, Option<int>) {
    if p in c.untracked then (c, None)
    else if c.version.None? then (c.(version := Some(0)), Some(0))
    else (c, c.version)
  }

  predicate Readable(c: Caches, p: int) {
    p !in c.untracked && c.remote.Some? && c.now <= c.remote.value.expires
  }

  /** The entry takes the payload's version on trust: it is not compared with the counter. */
  function Hydrate(c: Caches, p: int, ttl: int): (Caches, Option<Menu>) {
    if !Readable(c, p) then (c, None)
    else
      var r := c.remote.value;
      (c.(locals := c.locals[p := Local(c.now + LocalTtl(ttl), Some(r.version), r.payload, r.stored)]), Some(r.payload))
  }

  function Drop(c: Caches, p: int): Caches {
    c.(locals := c.locals - {p})
  }

  /** The payload found, if any, and the version the request saw on the way. */
  function Load(c: Caches, p: int, ttl: int): (Caches, Option<Menu>, Option<int>) {
    if p !in c.locals then
      var (c', found) := Hydrate(c, p, ttl);
      (c', found, None)
    else if c.locals[p].expires < c.now then
      var (c', found) := Hydrate(Drop(c, p), p, ttl);
      (c', found, None)
    else
      var (c', version) := Fetch(c, p);
      if version.Some? && c.locals[p].version != version then
        var (c'', found) := Hydrate(Drop(c', p), p, ttl);
        (c'', found, version)
      else (c', Some(c.locals[p].payload), version)
  }

  function StoreLocal(c: Caches, p: int, payload: Menu, version: Option<int>, ttl: int): Caches {
    c.(locals := c.locals[p := Local(c.now + LocalTtl(ttl), version, payload, c.now)])
  }

  function WriteRemote(c: Caches, payload: Menu, version: Option<int>, ttl: int): Caches {
    c.(remote := Some(Remote(if version.Some? then version.value else 0, payload, c.now + RemoteTtl(ttl), c.now)))
  }

  function Store(c: Caches, p: int, payload: Menu, seen: Option<int>, ttl: int): Caches {
    var (c', version) := if seen.Some? then (c, seen) else Fetch(c, p);
    var stored := StoreLocal(c', p, payload, version, ttl);
    if p in c.untracked then stored else WriteRemote(stored, payload, version, ttl)
  }

  function Get(c: Caches, p: int, ttl: int): (Caches, Menu) {
    var (c', found, seen) := Load(c, p, ttl);
    if found.Some? then (c', found.value) else (Store(c', p, c.menu, seen, ttl), c.menu)
  }

  /** Clears the calling process's entry only; the others learn of it through the counter. */
  function Invalidate(c: Caches, p: int): Caches {
    if p in c.untracked then Drop(c, p)
    else Drop(c, p).(remote := None, version := Some(if c.version.Some? then c.version.value + 1 else 1))
  }

  /**
   Whether or not the process reaches Redis its own entry goes and no other; a
   process that does takes the remote payload away and raises the version.
   */
  lemma InvalidateDrops(c: Caches, p: int)
    ensures var t := Invalidate(c, p);
            && t.locals.Keys == c.locals.Keys - {p}
            && (forall q :: q in t.locals ==> t.locals[q] == c.locals[q])
            && (if p in c.untracked then t.remote == c.remote && t.version == c.version
                else t.remote == None && t.version == Some(if c.version.Some? then c.version.value + 1 else 1))
  {
  }

  /**
   A rebuilt payload is written under the version the request saw, or else the current
   one: in the process for the configured lifetime, and in Redis, by a process that
   reaches it, for at least a second.
   */
  lemma StoresUntil(c: Caches, p: int, payload: Menu, seen: Option<int>, ttl: int)
    ensures var t := Store(c, p, payload, seen, ttl);
            var version := if seen.Some? then seen else if p in c.untracked then None
                           else if c.version.Some? then c.version else Some(0);
            && t.locals == c.locals[p := Local(c.now + SECOND * (if ttl >= 0 then ttl else 0), version, payload, c.now)]
            && t.remote == (if p in c.untracked then c.remote
                            else Some(Remote(if version.Some? then version.value else 0, payload,
                                             c.now + SECOND * (if ttl >= 1 then ttl else 1), c.now)))
            && t.version == if seen.Some? || p in c.untracked || c.version.Some? then c.version else Some(0)
  {
  }

  /** A process without an entry takes Redis's payload while its lifetime lasts, for the configured lifetime more. */
  lemma HydratesUntil(c: Caches, p: int, ttl: int)
    requires p !in c.locals
    ensures var (t, found, seen) := Load(c, p, ttl);
            && seen == None && t.remote == c.remote && t.version == c.version
            && if p !in c.untracked && c.remote.Some? && c.now <= c.remote.value.expires then
                 var r := c.remote.value;
                 found == Some(r.payload)
                 && t.locals == c.locals[p := Local(c.now + SECOND * (if ttl >= 0 then ttl else 0), Some(r.version), r.payload, r.stored)]
               else found == None && t.locals == c.locals
  {
  }

  /** The dictionaries and keys the service changes in place. */
  class Site {
    var menu: Menu
    var locals: map<int, Local>
    var untracked: set<int>
    var version: Option<int>
    var remote: Option<Remote>
    var now: int

    function View(): Caches
      reads this
    {
      Caches(menu, locals, untracked, version, remote, now)
    }

    method FetchRemoteVersion(p: int) returns (v: Option<int>)
      modifies this
      ensures (View(), v) == Fetch(old(View()), p)
    {
      if p in untracked {
        return None;
      }
      if version.None? {
        version := Some(0);
      }
      return version;
    }

    method HydrateFromRemoteCache(p: int, ttl: int) returns (found: Option<Menu>)
      modifies this
      ensures (View(), found) == Hydrate(old(View()), p, ttl)
    {
      if !Readable(View(), p) {
        return None;
      }
      var r := remote.value;
      locals := locals[p := Local(now + LocalTtl(ttl), Some(r.version), r.payload, r.stored)];
      return Some(r.payload);
    }

    method LoadFromCache(p: int, ttl: int) returns (found: Option<Menu>, seen: Option<int>)
      modifies this
      ensures (View(), found, seen) == Load(old(View()), p, ttl)
    {
      seen := None;
      if p !in locals {
        found := HydrateFromRemoteCache(p, ttl);
        return;
      }
      var entry := locals[p];
      if entry.expires < now {
        locals := locals - {p};
        found := HydrateFromRemoteCache(p, ttl);
        return;
      }
      seen := FetchRemoteVersion(p);
      if seen.Some? && entry.version != seen {
        locals := locals - {p};
        found := HydrateFromRemoteCache(p, ttl);
        return;
      }
      found := Some(entry.payload);
    }

    method StoreToCache(p: int, payload: Menu, seen: Option<int>, ttl: int)
      modifies this
      ensures View() == Store(old(View()), p, payload, seen, ttl)
    {
      var v := seen;
      if v.None? {
        v := FetchRemoteVersion(p);
      }
      locals := locals[p := Local(now + LocalTtl(ttl), v, payload, now)];
      if p !in untracked {
        remote := Some(Remote(if v.Some? then v.value else 0, payload, now + RemoteTtl(ttl), now));
      }
    }

    method GetMenuPayload(p: int, ttl: int) returns (payload: Menu)
      modifies this
      ensures (View(), payload) == Get(old(View()), p, ttl)
    {
      var found, seen := LoadFromCache(p, ttl);
      if found.Some? {
        return found.value;
      }
      payload := menu;
      StoreToCache(p, payload, seen, ttl);
    }

    method InvalidateMenuCache(p: int)
      modifies this
      ensures View() == Invalidate(old(View()), p)
    {
      locals := locals - {p};
      if p in untracked {
        return;
      }
      remote := None;
      version := if version.Some? then Some(version.value + 1) else Some(1);
    }
  }

  // ---------- every interleaving ----------

  /**
   The pieces of a call as separate steps, so that anything may come between them,
   with payloads and versions left arbitrary: late stores, lost or repeated or early
   invalidations, a flushed Redis, processes that lose their connection.
   */
  datatype Move =
    | Serves(p: int)
    | Hydrates(p: int)
    | Drops(p: int)
    | Stores(p: int, payload: Menu, version: Option<int>)
    | Writes(payload: Menu, version: Option<int>)
    | Forgets
    | Counts(version: Option<int>)
    | Untracks(p: int)
    | Commits(menu: Menu)
    | Waits(d: nat)

  function Apply(c: Caches, m: Move, ttl: int): Caches {
    match m
    case Serves(p) => c
    case Hydrates(p) => Hydrate(c, p, ttl).0
    case Drops(p) => Drop(c, p)
    case Stores(p, payload, version) => StoreLocal(c, p, payload, version, ttl)
    case Writes(payload, version) => WriteRemote(c, payload, version, ttl)
    case Forgets => c.(remote := None)
    case Counts(version) => c.(version := version)
    case Untracks(p) => c.(untracked := c.untracked + {p})
    case Commits(menu) => c.(menu := menu)
    case Waits(d) => c.(now := c.now + d)
  }

  function ApplyAll(c: Caches, ms: seq<Move>, ttl: int): Caches
    decreases ms
  {
    if ms == [] then c else ApplyAll(Apply(c, ms[0], ttl), ms[1..], ttl)
  }

  /** The payload a move hands to a client, and when it had entered the cache. */
  function Served(c: Caches, m: Move): Option<(Menu, int)> {
    match m
    case Serves(p) =>
      if p in c.locals && c.now <= c.locals[p].expires then Some((c.locals[p].payload, c.locals[p].stored)) else None
    case Hydrates(p) =>
      if Readable(c, p) then Some((c.remote.value.payload, c.remote.value.stored)) else None
    case _ => None
  }

  lemma AppliedTwo(c: Caches, a: Move, b: Move, ttl: int)
    ensures ApplyAll(c, [a, b], ttl) == Apply(Apply(c, a, ttl), b, ttl)
  {
    assert [a, b][1..] == [b] && [b][1..] == [];
    assert ApplyAll(Apply(c, a, ttl), [b], ttl) == Apply(Apply(c, a, ttl), b, ttl);
  }

  lemma {:induction false} ApplyConcat(c: Caches, xs: seq<Move>, ys: seq<Move>, ttl: int)
    ensures ApplyAll(c, xs + ys, ttl) == ApplyAll(ApplyAll(c, xs, ttl), ys, ttl)
    decreases xs
  {
    if xs == [] {
      assert xs + ys == ys;
    } else {
      assert (xs + ys)[1..] == xs[1..] + ys;
      ApplyConcat(Apply(c, xs[0], ttl), xs[1..], ys, ttl);
    }
  }

  /** No cached payload outlives one Redis lifetime, nor, once hydrated, one local lifetime more. */
  ghost predicate Young(c: Caches, ttl: int) {
    && (forall p :: p in c.locals ==> c.locals[p].expires <= c.locals[p].stored + RemoteTtl(ttl) + LocalTtl(ttl))
    && (c.remote.Some? ==> c.remote.value.expires <= c.remote.value.stored + RemoteTtl(ttl))
  }

  lemma {:induction false} StaysYoung(c: Caches, ms: seq<Move>, ttl: int)
    requires Young(c, ttl)
    ensures Young(ApplyAll(c, ms, ttl), ttl)
    decreases ms
  {
    if ms != [] {
      StaysYoung(Apply(c, ms[0], ttl), ms[1..], ttl);
    }
  }

  /** In every interleaving nothing is served later than one Redis and one local lifetime after it was stored. */
  lemma ServedWithinTwoLifetimes(c: Caches, ms: seq<Move>, m: Move, ttl: int)
    requires Young(c, ttl)
    ensures var t := ApplyAll(c, ms, ttl);
            Served(t, m).Some? ==> t.now - Served(t, m).value.1 <= RemoteTtl(ttl) + LocalTtl(ttl)
    ensures ttl >= 1 ==> RemoteTtl(ttl) + LocalTtl(ttl) == 2 * ttl * SECOND
  {
    StaysYoung(c, ms, ttl);
  }

  /** The bound is met: stored at 0, hydrated one lifetime later, served one more lifetime later. */
  lemma TwoLifetimesReached(payload: Menu, menu: Menu, ttl: nat)
    requires ttl >= 1
    ensures var c := Caches(menu, map[], {}, Some(0), None, 0);
            var ms := [Writes(payload, Some(0)), Waits(ttl * SECOND), Hydrates(1), Waits(ttl * SECOND)];
            var t := ApplyAll(c, ms, ttl);
            Young(c, ttl) && t.now == 2 * ttl * SECOND && Served(t, Serves(1)) == Some((payload, 0))
  {
    var c := Caches(menu, map[], {}, Some(0), None, 0);
    var d := ttl * SECOND;
    var half := ApplyAll(c, [Writes(payload, Some(0)), Waits(d)], ttl);
    AppliedTwo(c, Writes(payload, Some(0)), Waits(d), ttl);
    AppliedTwo(half, Hydrates(1), Waits(d), ttl);
    ApplyConcat(c, [Writes(payload, Some(0)), Waits(d)], [Hydrates(1), Waits(d)], ttl);
    assert [Writes(payload, Some(0)), Waits(d)] + [Hydrates(1), Waits(d)] ==
           [Writes(payload, Some(0)), Waits(d), Hydrates(1), Waits(d)];
  }

  lemma {:induction false} ApplySnoc(c: Caches, ms: seq<Move>, m: Move, ttl: int)
    ensures ApplyAll(c, ms + [m], ttl) == Apply(ApplyAll(c, ms, ttl), m, ttl)
  {
    ApplyConcat(c, ms, [m], ttl);
    var t := ApplyAll(c, ms, ttl);
    assert ApplyAll(Apply(t, m, ttl), [], ttl) == Apply(t, m, ttl);
  }

  /** The last move serves the payload, or an earlier one stores it. */
  ghost predicate Delivers(c: Caches, ms: seq<Move>, p: int, payload: Menu, ttl: int) {
    || (ms != [] && var last := Served(ApplyAll(c, ms[..|ms| - 1], ttl), ms[|ms| - 1]);
         last.Some? && last.value.0 == payload)
    || exists version :: Stores(p, payload, version) in ms
  }

  lemma LoadIsMoves(c: Caches, p: int, ttl: int) returns (ms: seq<Move>)
    ensures ApplyAll(c, ms, ttl) == Load(c, p, ttl).0
    ensures Load(c, p, ttl).1.Some? ==> Delivers(c, ms, p, Load(c, p, ttl).1.value, ttl)
  {
    var before: seq<Move>, last := [], Hydrates(p);
    if p in c.locals {
      before := [Drops(p)];
      if c.locals[p].expires >= c.now {
        var (c', version) := Fetch(c, p);
        before := [Counts(c'.version)];
        if version.Some? && c.locals[p].version != version {
          before := [Counts(c'.version), Drops(p)];
          AppliedTwo(c, Counts(c'.version), Drops(p), ttl);
        } else {
          last := Serves(p);
        }
      }
    }
    ApplySnoc(c, before, last, ttl);
    ms := before + [last];
    assert ms[..|ms| - 1] == before;
    AppliedOne(c, ttl);
  }

  lemma AppliedOne(c: Caches, ttl: int)
    ensures forall m :: ApplyAll(c, [m], ttl) == Apply(c, m, ttl)
  {
  }

  lemma StoreIsMoves(c: Caches, p: int, payload: Menu, seen: Option<int>, ttl: int) returns (ms: seq<Move>)
    ensures ApplyAll(c, ms, ttl) == Store(c, p, payload, seen, ttl)
    ensures exists version :: Stores(p, payload, version) in ms
  {
    var (c', version) := if seen.Some? then (c, seen) else Fetch(c, p);
    AppliedTwo(c, Counts(c'.version), Stores(p, payload, version), ttl);
    ms := [Counts(c'.version), Stores(p, payload, version)];
    assert Stores(p, payload, version) in ms;
    if p !in c.untracked {
      ApplySnoc(c, ms, Writes(payload, version), ttl);
      ms := ms + [Writes(payload, version)];
    }
  }

  /** A whole call is such a sequence of steps, and one of them serves or stores what it returns. */
  lemma GetIsMoves(c: Caches, p: int, ttl: int) returns (ms: seq<Move>)
    ensures ApplyAll(c, ms, ttl) == Get(c, p, ttl).0
    ensures Delivers(c, ms, p, Get(c, p, ttl).1, ttl)
  {
    hide Load, Store;
    ms := LoadIsMoves(c, p, ttl);
    var (c', found, seen) := Load(c, p, ttl);
    if found.None? {
      var more := StoreIsMoves(c', p, c.menu, seen, ttl);
      ApplyConcat(c, ms, more, ttl);
      var version :| Stores(p, c.menu, version) in more;
      ms := ms + more;
      assert Stores(p, c.menu, version) in ms;
    }
  }
}
