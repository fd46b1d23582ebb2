/** The merchant notifier: one bounded, drop-oldest queue per WebSocket (app/ws/manager.py). */
module Notifier {
  import opened Wrappers

  /** A queued message, or the signal that ends a sender. */
  datatype Note = Text(body: string) | Stop

  /**
   The three dictionaries, keyed by connection, and the connections whose
   application state is no longer CONNECTED.
   */
  datatype Hub = Hub(connections: set<int>, queues: map<int, seq<Note>>, tasks: set<int>, closed: set<int>)

  function Size(buffer: int): (n: nat)
    ensures n >= 1
  {
    if buffer > 1 then buffer else 1
  }

  // ---------- the operations ----------

  /** Makes room by dropping the oldest, then appends. */
  function Enqueue(q: seq<Note>, note: Note, size: nat): seq<Note> {
    (if |q| >= size && q != [] then q[1..] else q) + [note]
  }

  function Register(h: Hub, w: int): Hub {
    h.(connections := h.connections + {w}, queues := h.queues[w := []], tasks := h.tasks + {w})
  }

  function Unregister(h: Hub, w: int): Hub {
    h.(connections := h.connections - {w}, queues := h.queues - {w}, tasks := h.tasks - {w})
  }

  /** Connections found without an open socket or without a queue. */
  function Stale(h: Hub): set<int> {
    set w | w in h.connections && (w in h.closed || w !in h.queues)
  }

  /** The queue of `w` after a broadcast. */
  function Delivered(h: Hub, w: int, body: string, size: nat): seq<Note>
    requires w in h.queues
  {
    if w in h.connections && w !in h.closed then Enqueue(h.queues[w], Text(body), size) else h.queues[w]
  }

  function BroadcastLocal(h: Hub, body: string, size: nat): Hub {
    h.(queues := map w | w in h.queues :: Delivered(h, w, body, size))
  }

  lemma SameQueues(h: Hub, queues: map<int, seq<Note>>, body: string, size: nat)
    requires queues.Keys == h.queues.Keys && forall w :: w in queues ==> queues[w] == Delivered(h, w, body, size)
    ensures queues == BroadcastLocal(h, body, size).queues
  {
  }

  /** The sender of `w` takes the next note from its queue. */
  function Take(h: Hub, w: int): (Hub, Option<Note>) {
    if w !in h.tasks || w !in h.queues || h.queues[w] == [] then (h, None)
    else (h.(queues := h.queues[w := h.queues[w][1..]]), Some(h.queues[w][0]))
  }

  /** Puts the stop signal, dropping old notes for as long as the queue is full. */
  method SignalQueueStop(queue: seq<Note>, size: nat) returns (q: seq<Note>)
    requires size >= 1
    ensures |queue| <= size ==> q == Enqueue(queue, Stop, size)
    ensures q != [] && q[|q| - 1] == Stop && |q| <= size
  {
    q := queue;
    while true
      invariant |queue| <= size ==> q == queue || (|queue| == size && q == queue[1..])
      decreases |q|
    {
      if |q| < size {
        q := q + [Stop];
        break;
      }
      q := q[1..];
    }
  }

  class MerchantNotifier {
    const buffer: int
    var connections: set<int>
    var queues: map<int, seq<Note>>
    var tasks: set<int>
    var closed: set<int>

    constructor (buffer: int)
      ensures View() == Hub({}, map[], {}, {}) && this.buffer == buffer
    {
      this.buffer := buffer;
      connections, queues, tasks, closed := {}, map[], {}, {};
    }

    function View(): Hub
      reads this
    {
      Hub(connections, queues, tasks, closed)
    }

    method RegisterConnection(w: int)
      modifies this
      ensures View() == Register(old(View()), w)
    {
      connections := connections + {w};
      queues := queues[w := []];
      tasks := tasks + {w};
    }

    /** The popped queue gets the stop signal, for a sender that still holds it. */
    method UnregisterConnection(w: int) returns (left: Option<seq<Note>>)
      modifies this
      ensures View() == Unregister(old(View()), w)
      ensures left.Some? <==> w in old(queues)
      ensures left.Some? ==> left.value != [] && left.value[|left.value| - 1] == Stop
    {
      connections := connections - {w};
      left := None;
      if w in queues {
        var q := SignalQueueStop(queues[w], Size(buffer));
        left := Some(q);
      }
      queues := queues - {w};
      tasks := tasks - {w};
    }

    /** Nothing becomes stale by overflow: the put that follows a drop always finds room. */
    method BroadcastToLocal(body: string) returns (stale: set<int>)
      requires forall w :: w in queues ==> |queues[w]| <= Size(buffer)
      modifies this
      ensures View() == BroadcastLocal(old(View()), body, Size(buffer))
      ensures stale == Stale(old(View()))
    {
      stale := {};
      var size := Size(buffer);
      ghost var before := View();
      var todo := connections;
      while todo != {}
        invariant todo <= connections && queues.Keys == before.queues.Keys
        invariant View() == before.(queues := queues)
        invariant forall w :: w in before.queues ==>
          queues[w] == if w in todo then before.queues[w] else Delivered(before, w, body, size)
        invariant stale == set w | w in Stale(before) && w !in todo
        decreases todo
      {
        var w := AnyOf(todo);
        todo := todo - {w};
        if w in closed || w !in queues {
          stale := stale + {w};
          continue;
        }
        var q := queues[w];
        if |q| >= size {
          q := q[1..];
        }
        if |q| >= size {
          stale := stale + {w};
        } else {
          queues := queues[w := q + [Text(body)]];
        }
      }
      assert stale == Stale(before);
      SameQueues(before, queues, body, size);
    }

    method TakeNext(w: int) returns (note: Option<Note>)
      modifies this
      ensures (View(), note) == Take(old(View()), w)
    {
      if w !in tasks || w !in queues || queues[w] == [] {
        return None;
      }
      note := Some(queues[w][0]);
      queues := queues[w := queues[w][1..]];
    }
  }

  // ---------- runs ----------

  /**
   Closing a socket only changes its state; the disconnection of a stale or failing
   connection is an unregistration of its own, which may come any time later.
   */
  datatype Event = Registers(w: int) | Unregisters(w: int) | Broadcasts(body: string) | Takes(w: int) | Closes(w: int)

  /** The hub, and for each registration what its sender has taken so far. */
  datatype World = World(hub: Hub, taken: map<int, seq<Note>>)

  function Taken(x: World, w: int): seq<Note> {
    if w in x.taken then x.taken[w] else []
  }

  function Step(x: World, e: Event, size: nat): World {
    match e
    case Registers(w) => World(Register(x.hub, w), x.taken[w := []])
    case Unregisters(w) => x.(hub := Unregister(x.hub, w))
    case Broadcasts(body) => x.(hub := BroadcastLocal(x.hub, body, size))
    case Takes(w) =>
      var (hub, note) := Take(x.hub, w);
      World(hub, if note.Some? then x.taken[w := Taken(x, w) + [note.value]] else x.taken)
    case Closes(w) => x.(hub := x.hub.(closed := x.hub.closed + {w}))
  }

  function Run(es: seq<Event>, size: nat): World {
    if es == [] then World(Hub({}, map[], {}, {}), map[])
    else Step(Run(es[..|es| - 1], size), es[|es| - 1], size)
  }

  /** What was broadcast since the last registration of `w`, read off the events alone. */
  function Heard(es: seq<Event>, w: int): seq<Note> {
    if es == [] then []
    else
      var before := es[..|es| - 1];
      match es[|es| - 1]
      case Registers(v) => if v == w then [] else Heard(before, w)
      case Broadcasts(body) => Heard(before, w) + [Text(body)]
      case _ => Heard(before, w)
  }

  /** `xs` in the order of `ys`, each element of `ys` used at most once. */
  predicate Subsequence<T(==)>(xs: seq<T>, ys: seq<T>)
    decreases |ys|
  {
    || xs == []
    || (ys != [] &&
        ((xs[|xs| - 1] == ys[|ys| - 1] && Subsequence(xs[..|xs| - 1], ys[..|ys| - 1]))
         || Subsequence(xs, ys[..|ys| - 1])))
  }

  lemma SubsequenceGrows<T>(xs: seq<T>, ys: seq<T>, y: T)
    requires Subsequence(xs, ys)
    ensures Subsequence(xs, ys + [y]) && Subsequence(xs + [y], ys + [y])
  {
  }

  lemma {:induction false} SubsequenceLength<T>(xs: seq<T>, ys: seq<T>)
    requires Subsequence(xs, ys)
    ensures |xs| <= |ys| && (|xs| == |ys| ==> xs == ys)
    decreases |ys|
  {
    if xs != [] {
      var init, init' := xs[..|xs| - 1], ys[..|ys| - 1];
      if xs[|xs| - 1] == ys[|ys| - 1] && Subsequence(init, init') {
        SubsequenceLength(init, init');
        assert xs == init + [xs[|xs| - 1]] && ys == init' + [ys[|ys| - 1]];
      } else {
        SubsequenceLength(xs, init');
      }
    }
  }

  /** The queue is the tail of what was heard; what was taken is in order from the part before it. */
  ghost predicate Follows(queue: seq<Note>, taken: seq<Note>, heard: seq<Note>, size: nat) {
    && |queue| <= size && |queue| <= |heard|
    && queue == heard[|heard| - |queue|..]
    && Subsequence(taken, heard[..|heard| - |queue|])
  }

  lemma AppendFollows(queue: seq<Note>, taken: seq<Note>, heard: seq<Note>, size: nat, note: Note)
    requires Follows(queue, taken, heard, size) && |queue| < size
    ensures Follows(queue + [note], taken, heard + [note], size)
  {
    hide Subsequence;
    var n := |heard| - |queue|;
    assert (heard + [note])[..n] == heard[..n];
    assert (heard + [note])[n..] == heard[n..] + [note];
  }

  /** Dropping the oldest passes it to the part that is gone. */
  lemma DropFollows(queue: seq<Note>, taken: seq<Note>, heard: seq<Note>, size: nat)
    requires Follows(queue, taken, heard, size) && queue != []
    ensures Follows(queue[1..], taken, heard, size)
  {
    hide Subsequence;
    var n := |heard| - |queue|;
    SubsequenceGrows(taken, heard[..n], heard[n]);
    assert heard[..n + 1] == heard[..n] + [heard[n]];
  }

  lemma EnqueueFollows(queue: seq<Note>, taken: seq<Note>, heard: seq<Note>, size: nat, note: Note)
    requires Follows(queue, taken, heard, size) && size >= 1
    ensures Follows(Enqueue(queue, note, size), taken, heard + [note], size)
  {
    if |queue| >= size {
      DropFollows(queue, taken, heard, size);
      AppendFollows(queue[1..], taken, heard, size, note);
    } else {
      AppendFollows(queue, taken, heard, size, note);
    }
  }

  lemma TakeFollows(queue: seq<Note>, taken: seq<Note>, heard: seq<Note>, size: nat)
    requires Follows(queue, taken, heard, size) && queue != []
    ensures Follows(queue[1..], taken + [queue[0]], heard, size)
  {
    hide Subsequence;
    var n := |heard| - |queue|;
    SubsequenceGrows(taken, heard[..n], heard[n]);
    assert heard[..n + 1] == heard[..n] + [heard[n]];
  }

  /** The three maps have the same keys, no queue is over its size, and every open one follows the broadcasts. */
  ghost predicate Wired(x: World, es: seq<Event>, size: nat) {
    && x.hub.connections == x.hub.queues.Keys == x.hub.tasks
    && (forall w :: w in x.hub.queues ==> |x.hub.queues[w]| <= size)
    && (forall w :: w in x.hub.queues && w !in x.hub.closed ==> Follows(x.hub.queues[w], Taken(x, w), Heard(es, w), size))
  }

  lemma StepWired(x: World, es: seq<Event>, e: Event, size: nat)
    requires Wired(x, es, size) && size >= 1
    ensures Wired(Step(x, e, size), es + [e], size)
  {
    hide Follows, Subsequence;
    var x' := Step(x, e, size);
    assert (es + [e])[..|es|] == es;
    assert x'.hub.connections == x'.hub.queues.Keys == x'.hub.tasks;
    forall w | w in x'.hub.queues && w !in x'.hub.closed
      ensures Follows(x'.hub.queues[w], Taken(x', w), Heard(es + [e], w), size)
    {
      match e {
        case Registers(v) =>
          if v == w {
            FreshFollows(size);
          }
        case Broadcasts(body) =>
          EnqueueFollows(x.hub.queues[w], Taken(x, w), Heard(es, w), size, Text(body));
        case Takes(v) =>
          if v == w && x.hub.queues[w] != [] {
            TakeFollows(x.hub.queues[w], Taken(x, w), Heard(es, w), size);
          }
        case _ =>
      }
    }
  }

  lemma FreshFollows(size: nat)
    ensures Follows([], [], [], size)
  {
  }

  /**
   After any run the three maps have the same keys and every queue is within its size;
   for each registered connection whose socket is open the queue is a contiguous
   suffix of the messages broadcast since its registration, and the messages its
   sender took come from before that suffix, in broadcast order, none twice.
   */
  lemma {:induction false} RunWired(es: seq<Event>, buffer: int)
    ensures Wired(Run(es, Size(buffer)), es, Size(buffer))
  {
    hide Wired, Step;
    if es == [] {
      EmptyWired(Size(buffer));
    } else {
      var init, last := es[..|es| - 1], es[|es| - 1];
      RunWired(init, buffer);
      StepWired(Run(init, Size(buffer)), init, last, Size(buffer));
      assert es == init + [last];
    }
  }

  lemma EmptyWired(size: nat)
    ensures Wired(Run([], size), [], size)
  {
  }

  /** Broadcasts since the last registration of `w` that found its queue full. */
  function Overflows(es: seq<Event>, size: nat, w: int): nat {
    if es == [] then 0
    else
      var before := es[..|es| - 1];
      var queues := Run(before, size).hub.queues;
      match es[|es| - 1]
      case Registers(v) => if v == w then 0 else Overflows(before, size, w)
      case Broadcasts(_) => Overflows(before, size, w) + if w in queues && |queues[w]| >= size then 1 else 0
      case _ => Overflows(before, size, w)
  }

  ghost predicate Open(x: World, w: int) {
    w in x.hub.connections && w in x.hub.queues && w in x.hub.tasks && w !in x.hub.closed
  }

  lemma OpenBefore(x: World, e: Event, size: nat, w: int)
    requires Open(Step(x, e, size), w) && e != Registers(w)
    ensures Open(x, w)
  {
  }

  lemma StepCounts(x: World, e: Event, size: nat, w: int)
    requires Open(x, w) && Open(Step(x, e, size), w) && e != Registers(w) && size >= 1
    ensures var x' := Step(x, e, size);
            |Taken(x', w)| + |x'.hub.queues[w]| ==
            |Taken(x, w)| + |x.hub.queues[w]| + if e.Broadcasts? && |x.hub.queues[w]| < size then 1 else 0
  {
  }

  /** For an open connection, every message broadcast since its registration was taken, waits, or overflowed. */
  lemma {:induction false} EveryMessageCounted(es: seq<Event>, buffer: int, w: int)
    requires Open(Run(es, Size(buffer)), w)
    ensures var x := Run(es, Size(buffer));
            |Heard(es, w)| == |Taken(x, w)| + |x.hub.queues[w]| + Overflows(es, Size(buffer), w)
  {
    if es != [] && es[|es| - 1] != Registers(w) {
      var init, last := es[..|es| - 1], es[|es| - 1];
      hide Step, Open;
      OpenBefore(Run(init, Size(buffer)), last, Size(buffer), w);
      EveryMessageCounted(init, buffer, w);
      StepCounts(Run(init, Size(buffer)), last, Size(buffer), w);
    }
  }

  /** Without overflow nothing is lost, repeated or reordered. */
  lemma LosslessWithoutOverflow(es: seq<Event>, buffer: int, w: int)
    requires Open(Run(es, Size(buffer)), w) && Overflows(es, Size(buffer), w) == 0
    ensures var x := Run(es, Size(buffer)); Taken(x, w) + x.hub.queues[w] == Heard(es, w)
  {
    hide Run, Heard, Overflows, Subsequence, Taken;
    var x := Run(es, Size(buffer));
    var taken, queue, heard := Taken(x, w), x.hub.queues[w], Heard(es, w);
    RunWired(es, buffer);
    EveryMessageCounted(es, buffer, w);
    SubsequenceLength(taken, heard[..|heard| - |queue|]);
    assert heard == heard[..|heard| - |queue|] + heard[|heard| - |queue|..];
  }

  /** A queue is as long as the configured buffer, and at least one. */
  lemma SizeIsBuffer(buffer: int)
    ensures buffer >= 1 ==> Size(buffer) == buffer
    ensures buffer < 1 ==> Size(buffer) == 1
  {
  }

  /** A broadcast reaches every open connection; it drops a message, the oldest, exactly from queues that hold the buffer. */
  lemma BroadcastDropsOldest(es: seq<Event>, buffer: nat, w: int, body: string)
    requires buffer >= 1 && Open(Run(es, Size(buffer)), w)
    ensures var q := Run(es, Size(buffer)).hub.queues[w];
            var t := Run(es + [Broadcasts(body)], Size(buffer));
            && w in t.hub.queues
            && t.hub.queues[w] == (if |q| == buffer then q[1..] else q) + [Text(body)]
  {
    RunWired(es, buffer);
    assert (es + [Broadcasts(body)])[..|es|] == es;
    hide Run, Follows;
  }

  /** A broadcast changes no other queue, and no registration. */
  lemma BroadcastLeavesOthers(h: Hub, body: string, size: nat)
    ensures var t := BroadcastLocal(h, body, size);
            && t.connections == h.connections && t.tasks == h.tasks && t.closed == h.closed && t.queues.Keys == h.queues.Keys
            && forall w :: w in h.queues && (w in h.closed || w !in h.connections) ==> t.queues[w] == h.queues[w]
  {
  }

  /** Connections are stale exactly when they are registered and their socket is closed. */
  lemma StaleAreClosed(es: seq<Event>, buffer: int)
    ensures var h := Run(es, Size(buffer)).hub; Stale(h) == h.connections * h.closed
  {
    RunWired(es, buffer);
    hide Run, Follows;
  }
}
