/**
 One proxied request: an attempt, the judgement whether it provably never left,
 and at most one replay. The transport is an adversary that may hand over any
 connections and move any bytes; connection counters are also advanced by others.
 */
module RoundTrip {
  import opened Wrappers
  import opened UpstreamPool

  /** What every tracked connection has counted, in two counters that are loaded one after the other. */
  datatype Network = Network(written: map<Conn, nat>, read: map<Conn, nat>)

  /** Bytes that somebody moves on a connection. */
  datatype Move = Move(conn: Conn, sent: nat, received: nat)

  function Count(counter: map<Conn, nat>, c: Conn): nat {
    if c in counter then counter[c] else 0
  }

  function Moved(net: Network, m: Move): Network {
    Network(net.written[m.conn := Count(net.written, m.conn) + m.sent],
            net.read[m.conn := Count(net.read, m.conn) + m.received])
  }

  function MovedAll(net: Network, moves: seq<Move>): Network
    decreases |moves|
  {
    if moves == [] then net else MovedAll(Moved(net, moves[0]), moves[1..])
  }

  /** traffic: the written counter, then the read one, with `meanwhile` falling between the two loads. */
  function Traffic(net: Network, c: Conn, meanwhile: seq<Move>): nat {
    Count(net.written, c) + Count(MovedAll(net, meanwhile).read, c)
  }

  /** With nothing between the loads, what a tracked connection answers is the sum of its two counters. */
  lemma TrafficOfTheObject(net: Network, id: Conn, c: TrackedConn)
    requires Count(net.written, id) == c.written && Count(net.read, id) == c.read
    ensures Traffic(net, id, []) == c.Traffic() == c.written + c.read
  {
  }

  function SentOn(moves: seq<Move>, c: Conn): nat {
    if moves == [] then 0 else (if moves[0].conn == c then moves[0].sent else 0) + SentOn(moves[1..], c)
  }

  function ReceivedOn(moves: seq<Move>, c: Conn): nat {
    if moves == [] then 0 else (if moves[0].conn == c then moves[0].received else 0) + ReceivedOn(moves[1..], c)
  }

  lemma {:induction false} CountersOnlyGrow(net: Network, moves: seq<Move>, c: Conn)
    ensures Count(MovedAll(net, moves).written, c) == Count(net.written, c) + SentOn(moves, c)
    ensures Count(MovedAll(net, moves).read, c) == Count(net.read, c) + ReceivedOn(moves, c)
    decreases |moves|
  {
    if moves != [] {
      CountersOnlyGrow(Moved(net, moves[0]), moves[1..], c);
    }
  }

  /**
   What happens during one attempt: the transport hands a connection over
   (None is one the pool does not track) while others move bytes between the two
   loads of its counters, the request moves bytes on the connection it holds, or
   somebody else moves bytes on a connection.
   */
  datatype Event =
    | GotConn(handed: Option<Conn>, reused: bool, meanwhile: seq<Move>)
    | Own(sent: nat, received: nat)
    | Foreign(move: Move)

  // ---------------------------------------------------------------------
  // The trace
  // ---------------------------------------------------------------------

  datatype Trace<+C> = Trace(got: bool, reused: bool, conn: Option<C>, before: nat)

  /** `traffic` is what the handed connection has counted so far, if it is tracked. */
  function GotConnSection<C>(t: Trace<C>, conn: Option<C>, reused: bool, traffic: nat): Trace<C> {
    Trace(true, reused, conn, if conn.Some? then traffic else t.before)
  }

  datatype SendError = Canceled | LeafMismatch | Failed

  function ReplayableSection<C>(t: Trace<C>, contextDone: bool, err: SendError, traffic: nat): bool {
    if contextDone || err.Canceled? || err.LeafMismatch? then false
    else if !t.got then true
    else t.reused && t.conn.Some? && traffic == t.before
  }

  class AttemptTrace {
    var got: bool
    var reused: bool
    var conn: TrackedConn?
    var before: nat
    ghost var writtenThen: nat
    ghost var readThen: nat

    /** What was noted at the last hand-over is the sum of the two counters as they were then. */
    ghost predicate Valid()
      reads this
    {
      (conn != null ==> got && before == writtenThen + readThen)
    }

    ghost function State(): Trace<TrackedConn>
      reads this
    {
      Trace(got, reused, if conn == null then None else Some(conn), before)
    }

    constructor ()
      ensures Valid() && State() == Trace(false, false, None, 0)
    {
      got, reused, conn, before := false, false, null, 0;
    }

    method OnGotConn(handed: TrackedConn?, isReused: bool)
      modifies this
      ensures State() == GotConnSection(old(State()), if handed == null then None else Some(handed), isReused,
                                        if handed == null then 0 else old(handed.Traffic()))
      ensures Valid() && got && reused == isReused && conn == handed
      ensures handed != null ==> writtenThen == handed.written && readThen == handed.read
    {
      got, reused := true, isReused;
      conn := handed;
      if handed != null {
        before := handed.written + handed.read;
        writtenThen, readThen := handed.written, handed.read;
      }
    }

    /** Since counters never go back, a connection that was handed over passes only if neither counter moved. */
    method Replayable(contextDone: bool, err: SendError) returns (yes: bool)
      requires Valid()
      ensures yes == ReplayableSection(State(), contextDone, err, if conn == null then 0 else conn.Traffic())
      ensures contextDone || err != Failed ==> !yes
      ensures !contextDone && err == Failed && !got ==> yes
      ensures got && (!reused || conn == null) ==> !yes
      ensures !contextDone && err == Failed && got && reused && conn != null &&
              conn.written >= writtenThen && conn.read >= readThen ==>
                (yes <==> conn.written == writtenThen && conn.read == readThen)
    {
      if contextDone || err == Canceled || err == LeafMismatch {
        return false;
      }
      if !got {
        return true;
      }
      yes := reused && conn != null && conn.written + conn.read == before;
    }
  }

  // ---------------------------------------------------------------------
  // One attempt
  // ---------------------------------------------------------------------

  /** The state of an attempt: every connection's counters and what the trace has seen. */
  datatype Attempting = Attempting(net: Network, trace: Trace<Conn>)

  function OnEvent(a: Attempting, e: Event): Attempting {
    match e
    case GotConn(c, reused, meanwhile) =>
      Attempting(MovedAll(a.net, meanwhile),
                 GotConnSection(a.trace, c, reused, if c.Some? then Traffic(a.net, c.value, meanwhile) else 0))
    case Own(sent, received) =>
      if a.trace.conn.Some? then a.(net := Moved(a.net, Move(a.trace.conn.value, sent, received))) else a
    case Foreign(m) => a.(net := Moved(a.net, m))
  }

  function Attempt(net: Network, events: seq<Event>): Attempting {
    if events == [] then Attempting(net, Trace(false, false, None, 0))
    else OnEvent(Attempt(net, events[..|events| - 1]), events[|events| - 1])
  }

  /** The bytes the request itself moved, in either direction. */
  function OwnBytes(events: seq<Event>): nat {
    if events == [] then 0
    else
      var last := events[|events| - 1];
      OwnBytes(events[..|events| - 1]) + if last.Own? then last.sent + last.received else 0
  }

  /**
   The last hand-over, and the bytes anyone has moved on that connection since: written
   since the load of the one counter, read since the load of the other.
   */
  datatype HandOver = Never | Untracked | Tracked(conn: Conn, reused: bool, bytes: nat)

  function NextHandOver(h: HandOver, e: Event): HandOver {
    match e
    case GotConn(c, reused, meanwhile) =>
      if c.Some? then Tracked(c.value, reused, SentOn(meanwhile, c.value)) else Untracked
    case Own(sent, received) =>
      if h.Tracked? then h.(bytes := h.bytes + sent + received) else h
    case Foreign(m) =>
      if h.Tracked? && h.conn == m.conn then h.(bytes := h.bytes + m.sent + m.received) else h
  }

  function LastHandOver(events: seq<Event>): HandOver {
    if events == [] then Never
    else NextHandOver(LastHandOver(events[..|events| - 1]), events[|events| - 1])
  }

  /** The request's bytes that the last hand-over cannot account for: moved before it, or with no connection at all. */
  function Unseen(events: seq<Event>): nat {
    if events == [] then 0
    else
      var init, last := events[..|events| - 1], events[|events| - 1];
      match last
      case GotConn(_, _, _) => OwnBytes(init)
      case Own(sent, received) => Unseen(init) + if LastHandOver(init).Never? then sent + received else 0
      case Foreign(_) => Unseen(init)
  }

  /**
   What is assumed of the transport: a request moves bytes only on a connection it
   was handed, and is never moved to another one after it has moved some.
   */
  ghost predicate Lawful(events: seq<Event>) {
    events != [] ==>
      var init, last := events[..|events| - 1], events[|events| - 1];
      && Lawful(init)
      && (last.Own? ==> !LastHandOver(init).Never?)
      && (last.GotConn? ==> OwnBytes(init) == 0)
  }

  /** The trace's one number is exact: what the two counters hold above `before` is what crossed since the hand-over. */
  ghost predicate Exact(a: Attempting, h: HandOver) {
    match h
    case Never => !a.trace.got && a.trace.conn == None
    case Untracked => a.trace.got && a.trace.conn == None
    case Tracked(c, reused, bytes) =>
      a.trace.got && a.trace.conn == Some(c) && a.trace.reused == reused &&
      Count(a.net.written, c) + Count(a.net.read, c) == a.trace.before + bytes
  }

  lemma EventKeepsExact(a: Attempting, h: HandOver, e: Event)
    requires Exact(a, h)
    ensures Exact(OnEvent(a, e), NextHandOver(h, e))
  {
    if e.GotConn? && e.handed.Some? {
      CountersOnlyGrow(a.net, e.meanwhile, e.handed.value);
    }
  }

  lemma {:induction false} TraceIsExact(net: Network, events: seq<Event>)
    ensures Exact(Attempt(net, events), LastHandOver(events))
  {
    if events != [] {
      var init := events[..|events| - 1];
      TraceIsExact(net, init);
      EventKeepsExact(Attempt(net, init), LastHandOver(init), events[|events| - 1]);
    }
  }

  /** Every byte of the request is unseen or among those that crossed since its last hand-over. */
  lemma {:induction false} OwnBytesAreSeen(events: seq<Event>)
    ensures LastHandOver(events).Never? ==> OwnBytes(events) == Unseen(events)
    ensures LastHandOver(events).Tracked? ==> OwnBytes(events) <= Unseen(events) + LastHandOver(events).bytes
    ensures Unseen(events) <= OwnBytes(events)
  {
    if events != [] {
      OwnBytesAreSeen(events[..|events| - 1]);
    }
  }

  lemma {:induction false} LawfulHidesNothing(events: seq<Event>)
    requires Lawful(events)
    ensures Unseen(events) == 0
  {
    if events != [] {
      LawfulHidesNothing(events[..|events| - 1]);
    }
  }

  // ---------------------------------------------------------------------
  // The round trip
  // ---------------------------------------------------------------------

  /**
   What the transport does with one send: its events, what others move between the two loads
   of the judgement, and the error, if any.
   */
  datatype Send = Send(events: seq<Event>, late: seq<Move>, err: Option<SendError>)

  datatype Trip = Trip(attempts: nat, net: Network, err: Option<SendError>)

  function Judged(a: Attempting, contextDone: bool, err: SendError, late: seq<Move>): bool {
    var traffic := if a.trace.conn.Some? then Traffic(a.net, a.trace.conn.value, late) else 0;
    ReplayableSection(a.trace, contextDone, err, traffic)
  }

  function Go(net: Network, first: Send, second: Send, contextDone: bool, rewindable: bool): Trip {
    var a := Attempt(net, first.events);
    var after := MovedAll(a.net, first.late);
    if first.err.None? || !Judged(a, contextDone, first.err.value, first.late) || !rewindable then
      Trip(1, after, first.err)
    else
      Trip(2, Attempt(after, second.events).net, second.err)
  }

  /** The first attempt had no connection, or a reused tracked one that nothing crossed up to the judgement. */
  ghost predicate NeverLeft(h: HandOver, late: seq<Move>) {
    h.Never? || (h.Tracked? && h.reused && h.bytes == 0 && ReceivedOn(late, h.conn) == 0)
  }

  /** An unchanged sum of the two counters means that neither has moved. */
  lemma JudgementIsExact(a: Attempting, h: HandOver, contextDone: bool, err: SendError, late: seq<Move>)
    requires Exact(a, h)
    ensures Judged(a, contextDone, err, late) <==> err == Failed && !contextDone && NeverLeft(h, late)
  {
    if h.Tracked? {
      CountersOnlyGrow(a.net, late, h.conn);
    }
  }

  /** Exactly when a request is sent a second time. */
  lemma ReplayedIff(net: Network, first: Send, second: Send, contextDone: bool, rewindable: bool)
    ensures var trip := Go(net, first, second, contextDone, rewindable);
            && 1 <= trip.attempts <= 2
            && (trip.attempts == 2 <==>
                first.err == Some(Failed) && !contextDone && rewindable &&
                    NeverLeft(LastHandOver(first.events), first.late))
            && trip.err == (if trip.attempts == 2 then second.err else first.err)
  {
    TraceIsExact(net, first.events);
    if first.err.Some? {
      var a := Attempt(net, first.events);
      JudgementIsExact(a, LastHandOver(first.events), contextDone, first.err.value, first.late);
    }
  }

  /** The bytes an attempt puts on one connection, whoever moves them: the request's own are on the one handed last. */
  function Crossed(events: seq<Event>, c: Conn): nat {
    if events == [] then 0
    else
      var init, last := events[..|events| - 1], events[|events| - 1];
      Crossed(init, c) +
      match last
      case GotConn(_, _, meanwhile) => SentOn(meanwhile, c) + ReceivedOn(meanwhile, c)
      case Own(sent, received) => if On(LastHandOver(init), c) then sent + received else 0
      case Foreign(m) => if m.conn == c then m.sent + m.received else 0
  }

  predicate On(h: HandOver, c: Conn) {
    h.Tracked? && h.conn == c
  }

  /** What both counters of a connection hold. */
  function Total(net: Network, c: Conn): nat {
    Count(net.written, c) + Count(net.read, c)
  }

  lemma {:induction false} AttemptAddsUp(net: Network, events: seq<Event>, c: Conn)
    ensures Total(Attempt(net, events).net, c) == Total(net, c) + Crossed(events, c)
  {
    if events != [] {
      var init, last := events[..|events| - 1], events[|events| - 1];
      AttemptAddsUp(net, init, c);
      TraceIsExact(net, init);
      if last.GotConn? {
        CountersOnlyGrow(Attempt(net, init).net, last.meanwhile, c);
      }
    }
  }

  /**
   Nothing is counted twice or lost: after the trip every connection's counters are what they
   were, plus what crossed it in the first attempt, up to the judgement, and in the second.
   */
  lemma TripAddsUp(net: Network, first: Send, second: Send, contextDone: bool, rewindable: bool, c: Conn)
    ensures var trip := Go(net, first, second, contextDone, rewindable);
            Total(trip.net, c) ==
            Total(net, c) + Crossed(first.events, c) + SentOn(first.late, c) + ReceivedOn(first.late, c) +
            if trip.attempts == 2 then Crossed(second.events, c) else 0
  {
    hide Attempt, Crossed, Judged;
    var a := Attempt(net, first.events);
    AttemptAddsUp(net, first.events, c);
    CountersOnlyGrow(a.net, first.late, c);
    AttemptAddsUp(MovedAll(a.net, first.late), second.events, c);
  }

  /** The guard lets no request through twice that moved a byte, whatever else happens around these events. */
  ghost predicate GuardIsSafe(events: seq<Event>) {
    forall net, first: Send, second, contextDone, rewindable | first.events == events ::
      Go(net, first, second, contextDone, rewindable).attempts == 2 ==> OwnBytes(events) == 0
  }

  /**
   The guard is safe for what a transport does exactly when it refuses the attempt
   anyway, or no byte of the request moved before the last hand-over.
   */
  lemma GuardIsSafeIff(events: seq<Event>)
    ensures GuardIsSafe(events) <==> !NeverLeft(LastHandOver(events), []) || Unseen(events) == 0
  {
    OwnBytesAreSeen(events);
    if !NeverLeft(LastHandOver(events), []) || Unseen(events) == 0 {
      forall net, first: Send, second, contextDone, rewindable | first.events == events
        ensures Go(net, first, second, contextDone, rewindable).attempts == 2 ==> OwnBytes(events) == 0
      {
        ReplayedIff(net, first, second, contextDone, rewindable);
      }
    } else {
      var send := Send(events, [], Some(Failed));
      ReplayedIff(Network(map[], map[]), send, send, false, true);
      assert Go(Network(map[], map[]), send, send, false, true).attempts == 2;
    }
  }

  /**
   A transport that hides no byte of the request from the last hand-over lets at most one
   attempt move any, in either direction.
   */
  lemma AtMostOneAttemptMoves(net: Network, first: Send, second: Send, contextDone: bool, rewindable: bool)
    requires Unseen(first.events) == 0
    ensures Go(net, first, second, contextDone, rewindable).attempts == 2 ==> OwnBytes(first.events) == 0
  {
    ReplayedIff(net, first, second, contextDone, rewindable);
    OwnBytesAreSeen(first.events);
  }

  /** A transport that retries after writing can have both attempts move bytes. */
  lemma InternalRetryDefeatsTheGuard()
    ensures !GuardIsSafe([GotConn(Some(1), false, []), Own(1, 0), GotConn(Some(2), true, [])])
  {
    hide GuardIsSafe;
    var one, two := [GotConn(Some(1), false, [])], [GotConn(Some(1), false, []), Own(1, 0)];
    assert [] + [GotConn(Some(1), false, [])] == one && one + [Own(1, 0)] == two;
    OneMoreEvent([], GotConn(Some(1), false, []));
    OneMoreEvent(one, Own(1, 0));
    OneMoreEvent(two, GotConn(Some(2), true, []));
    var e := two + [GotConn(Some(2), true, [])];
    assert e == [GotConn(Some(1), false, []), Own(1, 0), GotConn(Some(2), true, [])];
    hide OwnBytes, LastHandOver, Unseen;
    GuardIsSafeIff(e);
  }

  lemma OneMoreEvent(init: seq<Event>, e: Event)
    ensures OwnBytes(init + [e]) == OwnBytes(init) + if e.Own? then e.sent + e.received else 0
    ensures LastHandOver(init + [e]) == NextHandOver(LastHandOver(init), e)
    ensures e.GotConn? ==> Unseen(init + [e]) == OwnBytes(init)
  {
    assert (init + [e])[..|init|] == init;
  }
}
