/** Runs of the engine-side bridge over an arbitrary interleaving of events:
    connections arriving (in whatever order the handler threads manage to
    enqueue), frames, and collision callbacks. A log records what happened,
    and the lemmas state the per-queue FIFO order, the at-most-one-per-frame
    bound and how every connection ends. */
module ControllerTrace {
  import opened Maybe
  import opened Controller

  /** One thing that happens to the bridge. A `Connect` stands for a handler
      thread completing its read and enqueue. */
  datatype Event =
    | Connect(client: Client, read: ReadResult)
    | Frame(motion: Motion, rx: int, writeOk: bool)
    | CollisionEnter(tag: string, rx: int)
    | CollisionExit(tag: string)

  /** The random draws an event consumes come from `Random.Range(-13, 13)`. */
  predicate ValidEvent(e: Event) {
    match e
    case Frame(_, rx, _) => InTargetRange(rx)
    case CollisionEnter(_, rx) => InTargetRange(rx)
    case _ => true
  }

  predicate AllValid(events: seq<Event>) {
    forall i :: 0 <= i < |events| ==> ValidEvent(events[i])
  }

  /** What has happened so far: connections received, commands enqueued and
      applied, clients queued for and served a snapshot, reply lines written,
      connections closed and connections left open, and frames run. */
  datatype Log = Log(received: seq<Client>, enqueued: seq<string>, applied: seq<string>,
                     asked: seq<Client>, served: seq<Client>, replies: seq<string>,
                     closed: seq<Client>, leftOpen: seq<Client>, frames: nat)

  const EmptyLog: Log := Log([], [], [], [], [], [], [], [], 0)

  datatype World = World(bridge: Bridge, log: Log)

  /** A fresh bridge: the scene's state and two empty queues. */
  function Start(s: Sim): World {
    World(Bridge(s, [], []), EmptyLog)
  }

  /** A handler thread finishing with connection `c`. */
  function ConnectStep(w: World, c: Client, read: ReadResult): World {
    var h := HandleClient(w.bridge, c, read);
    var log := w.log.(received := w.log.received + [c]);
    World(h.next,
          match h.fate
          case AwaitingReply => log.(asked := log.asked + [c])
          case ClosedOnError => log.(closed := log.closed + [c])
          case Enqueued(command) =>
            log.(enqueued := log.enqueued + [command], leftOpen := log.leftOpen + [c]))
  }

  /** One engine frame. */
  function FrameStep(w: World, mv: Motion, rx: int, writeOk: bool): World
    requires InTargetRange(rx)
  {
    var t := Update(w.bridge, mv, rx, writeOk);
    World(t.next,
          w.log.(applied := w.log.applied + ToSeq(t.applied),
                 served := w.log.served + ToSeq(t.served),
                 replies := w.log.replies + ToSeq(t.written),
                 closed := w.log.closed + t.closed,
                 frames := w.log.frames + 1))
  }

  function Apply(w: World, e: Event): World
    requires ValidEvent(e)
  {
    match e
    case Connect(c, read) => ConnectStep(w, c, read)
    case Frame(mv, rx, writeOk) => FrameStep(w, mv, rx, writeOk)
    case CollisionEnter(tag, rx) =>
      World(w.bridge.(sim := OnCollisionEnter(w.bridge.sim, tag, rx)), w.log)
    case CollisionExit(tag) =>
      World(w.bridge.(sim := OnCollisionExit(w.bridge.sim, tag)), w.log)
  }

  function Run(w: World, events: seq<Event>): World
    requires AllValid(events)
    decreases |events|
  {
    if |events| == 0 then w else Run(Apply(w, events[0]), events[1..])
  }

  // ---------------------------------------------------------------------
  // What a trace submits, independently of the bridge

  function ConnectedBy(e: Event): seq<Client> {
    if e.Connect? then [e.client] else []
  }

  /** The command text an event enqueues, if it is a connection whose read
      succeeded with anything other than the reserved query text. */
  function SubmittedBy(e: Event): seq<string> {
    if e.Connect? && e.read.Received? && Payload(e.read.arrived) != QueryToken
    then [Payload(e.read.arrived)] else []
  }

  /** The client an event queues for a snapshot, if any. */
  function AskedBy(e: Event): seq<Client> {
    if e.Connect? && e.read.Received? && Payload(e.read.arrived) == QueryToken
    then [e.client] else []
  }

  function FramesIn(e: Event): nat {
    if e.Frame? then 1 else 0
  }

  function Connected(events: seq<Event>): seq<Client>
    decreases |events|
  {
    if |events| == 0 then [] else ConnectedBy(events[0]) + Connected(events[1..])
  }

  function Submitted(events: seq<Event>): seq<string>
    decreases |events|
  {
    if |events| == 0 then [] else SubmittedBy(events[0]) + Submitted(events[1..])
  }

  function Asked(events: seq<Event>): seq<Client>
    decreases |events|
  {
    if |events| == 0 then [] else AskedBy(events[0]) + Asked(events[1..])
  }

  function Frames(events: seq<Event>): nat
    decreases |events|
  {
    if |events| == 0 then 0 else FramesIn(events[0]) + Frames(events[1..])
  }

  // ---------------------------------------------------------------------
  // The bookkeeping invariant

  /** Commands and queries leave their queues from the head, one per frame at
      most; every received connection is closed, still queued, or was left
      open after a command; and every served client was closed. */
  predicate Accounts(w: World) {
    && w.log.enqueued == w.log.applied + w.bridge.commands
    && w.log.asked == w.log.served + w.bridge.queries
    && |w.log.applied| <= w.log.frames
    && |w.log.served| <= w.log.frames
    && multiset(w.log.received)
         == multiset(w.log.closed) + multiset(w.bridge.queries) + multiset(w.log.leftOpen)
    && multiset(w.log.served) <= multiset(w.log.closed)
  }

  lemma ConnectKeepsAccounts(w: World, c: Client, read: ReadResult)
    requires Accounts(w)
    ensures Accounts(Apply(w, Connect(c, read)))
  {
    var h := HandleClient(w.bridge, c, read);
    var w' := Apply(w, Connect(c, read));
    assert w'.log.received == w.log.received + [c];
    match h.fate {
      case AwaitingReply =>
        assert w'.bridge.queries == w.bridge.queries + [c];
        assert w'.log.asked == w.log.asked + [c];
      case ClosedOnError =>
        assert w'.bridge == w.bridge;
        assert w'.log.closed == w.log.closed + [c];
      case Enqueued(command) =>
        assert w'.bridge.commands == w.bridge.commands + [command];
        assert w'.log.enqueued == w.log.enqueued + [command];
        assert w'.log.leftOpen == w.log.leftOpen + [c];
    }
  }

  /** Taking `d` off the front of the queue and appending it to the done
      part keeps their concatenation. */
  lemma MoveHead<T>(all: seq<T>, done: seq<T>, queue: seq<T>, d: seq<T>, rest: seq<T>)
    requires all == done + queue && queue == d + rest
    ensures all == (done + d) + rest
  {
  }

  lemma FrameKeepsOrder(w: World, mv: Motion, rx: int, writeOk: bool)
    requires InTargetRange(rx) && Accounts(w)
    ensures var w' := Apply(w, Frame(mv, rx, writeOk));
      && w'.log.enqueued == w'.log.applied + w'.bridge.commands
      && w'.log.asked == w'.log.served + w'.bridge.queries
      && |w'.log.applied| <= w'.log.frames && |w'.log.served| <= w'.log.frames
  {
    var t := Update(w.bridge, mv, rx, writeOk);
    MoveHead(w.log.enqueued, w.log.applied, w.bridge.commands, ToSeq(t.applied), t.next.commands);
    MoveHead(w.log.asked, w.log.served, w.bridge.queries, ToSeq(t.served), t.next.queries);
  }

  lemma FrameKeepsClosures(w: World, mv: Motion, rx: int, writeOk: bool)
    requires InTargetRange(rx) && Accounts(w)
    ensures var w' := Apply(w, Frame(mv, rx, writeOk));
      && multiset(w'.log.received)
           == multiset(w'.log.closed) + multiset(w'.bridge.queries) + multiset(w'.log.leftOpen)
      && multiset(w'.log.served) <= multiset(w'.log.closed)
  {
    var t := Update(w.bridge, mv, rx, writeOk);
    assert multiset(w.bridge.queries) == multiset(ToSeq(t.served)) + multiset(t.next.queries);
  }

  lemma FrameKeepsAccounts(w: World, mv: Motion, rx: int, writeOk: bool)
    requires InTargetRange(rx) && Accounts(w)
    ensures Accounts(Apply(w, Frame(mv, rx, writeOk)))
  {
    FrameKeepsOrder(w, mv, rx, writeOk);
    FrameKeepsClosures(w, mv, rx, writeOk);
  }

  lemma ApplyKeepsAccounts(w: World, e: Event)
    requires ValidEvent(e) && Accounts(w)
    ensures Accounts(Apply(w, e))
  {
    match e
    case Connect(c, read) => ConnectKeepsAccounts(w, c, read);
    case Frame(mv, rx, writeOk) => FrameKeepsAccounts(w, mv, rx, writeOk);
    case CollisionEnter(tag, rx) =>
    case CollisionExit(tag) =>
  }

  /** The log `later` is `earlier` plus what one event submits. */
  predicate StepExtends(later: Log, earlier: Log, e: Event) {
    && later.received == earlier.received + ConnectedBy(e)
    && later.enqueued == earlier.enqueued + SubmittedBy(e)
    && later.asked == earlier.asked + AskedBy(e)
    && later.frames == earlier.frames + FramesIn(e)
  }

  /** The log `later` is `earlier` plus what the events submit, in order. */
  predicate LogExtends(later: Log, earlier: Log, events: seq<Event>) {
    && later.received == earlier.received + Connected(events)
    && later.enqueued == earlier.enqueued + Submitted(events)
    && later.asked == earlier.asked + Asked(events)
    && later.frames == earlier.frames + Frames(events)
  }

  /** Appending `d` and then `rest` is appending `d + rest`. */
  lemma AppendInTwo<T>(x0: seq<T>, x1: seq<T>, x2: seq<T>, d: seq<T>, rest: seq<T>)
    requires x1 == x0 + d && x2 == x1 + rest
    ensures x2 == x0 + (d + rest)
  {
  }

  lemma ExtendsByFirst(l0: Log, l1: Log, l2: Log, events: seq<Event>)
    requires |events| > 0
    requires StepExtends(l1, l0, events[0]) && LogExtends(l2, l1, events[1..])
    ensures LogExtends(l2, l0, events)
  {
    var e, rest := events[0], events[1..];
    assert Connected(events) == ConnectedBy(e) + Connected(rest);
    assert Submitted(events) == SubmittedBy(e) + Submitted(rest);
    assert Asked(events) == AskedBy(e) + Asked(rest);
    AppendInTwo(l0.received, l1.received, l2.received, ConnectedBy(e), Connected(rest));
    AppendInTwo(l0.enqueued, l1.enqueued, l2.enqueued, SubmittedBy(e), Submitted(rest));
    AppendInTwo(l0.asked, l1.asked, l2.asked, AskedBy(e), Asked(rest));
  }

  /** One event extends the log by exactly what the event submits. */
  lemma ApplyExtendsLog(w: World, e: Event)
    requires ValidEvent(e)
    ensures StepExtends(Apply(w, e).log, w.log, e)
  {
  }

  lemma {:induction false} RunKeepsAccounts(w: World, events: seq<Event>)
    requires AllValid(events) && Accounts(w)
    ensures Accounts(Run(w, events))
    decreases |events|
  {
    if |events| > 0 {
      ApplyKeepsAccounts(w, events[0]);
      RunKeepsAccounts(Apply(w, events[0]), events[1..]);
    }
  }

  /** A run extends the log by what its events submit, in event order. */
  lemma {:induction false} RunExtendsLog(w: World, events: seq<Event>)
    requires AllValid(events)
    ensures LogExtends(Run(w, events).log, w.log, events)
    decreases |events|
  {
    if |events| == 0 {
      assert w.log.received + [] == w.log.received;
      assert w.log.enqueued + [] == w.log.enqueued;
      assert w.log.asked + [] == w.log.asked;
    } else {
      var w1 := Apply(w, events[0]);
      ApplyExtendsLog(w, events[0]);
      RunExtendsLog(w1, events[1..]);
      ExtendsByFirst(w.log, w1.log, Run(w1, events[1..]).log, events);
    }
  }

  // ---------------------------------------------------------------------
  // Theorems about complete runs

  /** Per-queue FIFO: after any run from a fresh bridge, the commands applied
      are the oldest submitted ones in submission order, the rest are still
      queued, and no more were applied than frames ran. */
  lemma CommandsAppliedInOrder(s: Sim, events: seq<Event>)
    requires AllValid(events)
    ensures Submitted(events) == Run(Start(s), events).log.applied
                                 + Run(Start(s), events).bridge.commands
    ensures |Run(Start(s), events).log.applied| <= Frames(events)
  {
    RunKeepsAccounts(Start(s), events);
    RunExtendsLog(Start(s), events);
  }

  /** The same for position requests: clients are answered in the order they
      were queued, at most one per frame. */
  lemma QueriesServedInOrder(s: Sim, events: seq<Event>)
    requires AllValid(events)
    ensures Asked(events) == Run(Start(s), events).log.served
                             + Run(Start(s), events).bridge.queries
    ensures |Run(Start(s), events).log.served| <= Frames(events)
  {
    RunKeepsAccounts(Start(s), events);
    RunExtendsLog(Start(s), events);
  }

  predicate NoDuplicates<T(==)>(s: seq<T>) {
    forall i, j :: 0 <= i < j < |s| ==> s[i] != s[j]
  }

  lemma {:induction false} NoDuplicatesCount<T>(s: seq<T>, x: T)
    requires NoDuplicates(s)
    ensures multiset(s)[x] <= 1
    decreases |s|
  {
    if |s| > 0 {
      assert s == [s[0]] + s[1..];
      assert NoDuplicates(s[1..]);
      NoDuplicatesCount(s[1..], x);
      if s[0] == x {
        assert x !in s[1..];
      }
    }
  }

  /** When every connection is a distinct client, no connection is closed
      twice, and every client that was served a snapshot was closed exactly
      once. */
  lemma ClosedAtMostOnce(s: Sim, events: seq<Event>, c: Client)
    requires AllValid(events)
    requires NoDuplicates(Connected(events))
    ensures multiset(Run(Start(s), events).log.closed)[c] <= 1
    ensures c in Run(Start(s), events).log.served ==>
              multiset(Run(Start(s), events).log.closed)[c] == 1
  {
    var w := Run(Start(s), events);
    RunKeepsAccounts(Start(s), events);
    RunExtendsLog(Start(s), events);
    assert w.log.received == Connected(events);
    NoDuplicatesCount(w.log.received, c);
    if c in w.log.served {
      assert multiset(w.log.served)[c] >= 1;
    }
  }

  predicate AllFrames(events: seq<Event>) {
    forall i :: 0 <= i < |events| ==> events[i].Frame?
  }

  /** Every event is a frame whose reply write succeeds. */
  predicate AllWritesOk(events: seq<Event>) {
    forall i :: 0 <= i < |events| ==> events[i].Frame? && events[i].writeOk
  }

  /** Frames alone drain the position-request queue: with at least as many
      frames as queued requests, every queued client is served and closed, in
      queue order, and gets its reply unless the write fails. */
  lemma {:induction false} PendingQueriesAnswered(w: World, events: seq<Event>)
    requires AllValid(events) && AllFrames(events)
    requires |w.bridge.queries| <= |events|
    ensures var w' := Run(w, events);
      && w'.bridge.queries == []
      && w'.log.served == w.log.served + w.bridge.queries
      && w'.log.closed == w.log.closed + w.bridge.queries
      && |w'.log.replies| <= |w.log.replies| + |w.bridge.queries|
      && (AllWritesOk(events) ==> |w'.log.replies| == |w.log.replies| + |w.bridge.queries|)
    decreases |events|
  {
    if |events| == 0 {
      assert w.log.served + [] == w.log.served;
      assert w.log.closed + [] == w.log.closed;
    } else {
      var e, rest := events[0], events[1..];
      var t := Update(w.bridge, e.motion, e.rx, e.writeOk);
      var w1 := Apply(w, e);
      assert w1 == FrameStep(w, e.motion, e.rx, e.writeOk);
      assert AllFrames(rest) && AllValid(rest) by {
        assert forall i :: 0 <= i < |rest| ==> rest[i] == events[i + 1];
      }
      assert AllWritesOk(events) ==> AllWritesOk(rest) && e.writeOk by {
        assert forall i :: 0 <= i < |rest| ==> rest[i] == events[i + 1];
      }
      PendingQueriesAnswered(w1, rest);
      var w' := Run(w1, rest);
      AppendInTwo(w.log.served, w1.log.served, w'.log.served, ToSeq(t.served), t.next.queries);
      AppendInTwo(w.log.closed, w1.log.closed, w'.log.closed, ToSeq(t.served), t.next.queries);
    }
  }

  /** K position requests yield K answers: when at least as many frames as
      requests follow a run, every client that asked is served, in order, and
      (connections being distinct clients) closed exactly once. */
  lemma AllQueriesAnswered(s: Sim, events: seq<Event>, frames: seq<Event>, c: Client)
    requires AllValid(events) && AllValid(frames) && AllFrames(frames)
    requires |Asked(events)| <= |frames|
    requires NoDuplicates(Connected(events))
    ensures var w := Run(Run(Start(s), events), frames);
      && w.log.served == Asked(events)
      && w.bridge.queries == []
      && (c in Asked(events) ==> multiset(w.log.closed)[c] == 1)
  {
    var mid := Run(Start(s), events);
    RunKeepsAccounts(Start(s), events);
    RunExtendsLog(Start(s), events);
    assert mid.log.asked == Asked(events) && mid.log.received == Connected(events);
    PendingQueriesAnswered(mid, frames);
    var w := Run(mid, frames);
    assert multiset(w.log.closed) == multiset(mid.log.closed) + multiset(mid.bridge.queries);
    NoDuplicatesCount(mid.log.received, c);
    if c in mid.log.served {
      assert multiset(mid.log.served)[c] >= 1;
    }
  }

  /** A served query sees the state every earlier frame and callback left,
      including the command applied earlier in the same frame. */
  lemma ServedSeesCommandOfSameFrame(b: Bridge, mv: Motion, rx: int, writeOk: bool)
    requires InTargetRange(rx)
    requires |b.commands| > 0 && |b.queries| > 0 && writeOk
    ensures Update(b, mv, rx, writeOk).written
              == Some(Snapshot(ProcessCommand(b.sim, b.commands[0], mv, rx)))
  {
  }

  /** With no command pending, a query is answered with the state as it is. */
  lemma QueryWithoutCommandsSeesCurrentState(b: Bridge, mv: Motion, rx: int)
    requires InTargetRange(rx)
    requires |b.commands| == 0 && |b.queries| > 0
    ensures Update(b, mv, rx, true).written == Some(Snapshot(b.sim))
    ensures Update(b, mv, rx, true).next.sim == b.sim
  {
  }
}
