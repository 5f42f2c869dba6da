/**
 The pinned connection pool of one upstream.

 Every critical section of the pool's mutex is a function on `PoolState`; the
 class at the end of the file executes exactly those sections on real fields.
 Between them sits a step system in which any number of dials, pin changes,
 sweeps and closes interleave at the granularity of the lock.
 */
module UpstreamPool {

  /** What the mutex protects. The empty pin accepts any leaf. */
  datatype PoolState<C> = PoolState(pin: string, conns: set<C>)

  datatype DialVerdict = Admit | Mismatch(want: string, got: string)

  // ---------------------------------------------------------------------
  // The critical sections
  // ---------------------------------------------------------------------

  /** setPin: the flip and, if the pin really changed, the sweep that goes with it. */
  function FlipAndSweep<C>(s: PoolState<C>, pin: string): (PoolState<C>, set<C>) {
    if s.pin != pin then (PoolState(pin, {}), s.conns) else (s, {})
  }

  /** take: every registered connection leaves the pool. */
  function Take<C>(s: PoolState<C>): (PoolState<C>, set<C>) {
    (s.(conns := {}), s.conns)
  }

  /** The two checks of a dial: before the second lock hold, and under it. */
  function JudgeDial(start: string, current: string, observed: string): DialVerdict {
    if start != "" && start != observed then
      Mismatch(start, observed)
    else if current != start && current != observed then
      Mismatch(current, observed)
    else
      Admit
  }

  /** The second lock hold of a dial that began under the pin `start`. */
  function FinishDial<C>(s: PoolState<C>, start: string, observed: string, conn: C): (PoolState<C>, DialVerdict) {
    var verdict := JudgeDial(start, s.pin, observed);
    (if verdict.Admit? then s.(conns := s.conns + {conn}) else s, verdict)
  }

  function Forget<C>(s: PoolState<C>, conn: C): PoolState<C> {
    s.(conns := s.conns - {conn})
  }

  /**
   A dial is admitted exactly when the leaf matches the pin in force at the end,
   except that a dial which began and ended unpinned takes any leaf; and a pin
   read at the start can only make it stricter. The refusal always names a pin
   that was really in force and really differs.
   */
  lemma DialJudgement(start: string, current: string, observed: string)
    requires observed != ""
    ensures JudgeDial(start, current, observed).Admit? <==>
            (start == "" || start == observed) && (current == observed || (current == "" && start == ""))
    ensures JudgeDial(start, current, observed).Mismatch? ==>
              && JudgeDial(start, current, observed).got == observed
              && JudgeDial(start, current, observed).want ==
                 (if start != "" && start != observed then start else current)
              && JudgeDial(start, current, observed).want != observed
  {
  }

  // ---------------------------------------------------------------------
  // Interleavings
  // ---------------------------------------------------------------------

  type Conn = nat
  type Dial = nat

  /**
   The pool together with everything in flight around it. `dials` holds the pin
   each unfinished dial read; `closing` the connections some goroutine has
   committed to close, whether a sweep or the connection's own Close; the last
   four maps are history.
   */
  datatype World = World(
    pool: PoolState<Conn>,
    dials: map<Dial, string>,
    closing: set<Conn>,
    closed: set<Conn>,
    sweeps: nat,
    leaf: map<Conn, string>,
    bornAt: map<Conn, nat>,
    bornPin: map<Conn, string>,
    sweptAt: map<Conn, nat>)

  datatype Step =
    | BeginDial(dial: Dial)
    | AbortDial(dial: Dial)
    | EndDial(dial: Dial, conn: Conn, observed: string)
    | SetPin(pin: string)
    | CloseAll
    | BeginClose(conn: Conn)
    | EndClose(conn: Conn)

  function Initial(): World {
    World(PoolState("", {}), map[], {}, {}, 0, map[], map[], map[], map[])
  }

  /** A sweep hands everything it took to the goroutine that will close it. */
  function Swept(w: World, pool: PoolState<Conn>, stale: set<Conn>): World {
    w.(pool := pool,
       closing := w.closing + stale,
       sweeps := w.sweeps + 1,
       sweptAt := map c | c in w.sweptAt.Keys + stale :: if c in stale then w.sweeps + 1 else w.sweptAt[c])
  }

  /** One atomic step; a step that is not enabled changes nothing. */
  function Apply(w: World, step: Step): World {
    match step
    case BeginDial(d) =>
      if d in w.dials then w else w.(dials := w.dials[d := w.pool.pin])
    case AbortDial(d) =>
      w.(dials := w.dials - {d})
    case EndDial(d, c, observed) =>
      if d !in w.dials || c in w.leaf || observed == "" then w
      else
        var (pool, verdict) := FinishDial(w.pool, w.dials[d], observed, c);
        var done := w.(dials := w.dials - {d});
        if verdict.Mismatch? then done
        else done.(pool := pool,
                   leaf := w.leaf[c := observed],
                   bornAt := w.bornAt[c := w.sweeps],
                   bornPin := w.bornPin[c := w.pool.pin])
    case SetPin(pin) =>
      var (pool, stale) := FlipAndSweep(w.pool, pin);
      if pool == w.pool then w else Swept(w, pool, stale)
    case CloseAll =>
      var (pool, stale) := Take(w.pool);
      Swept(w, pool, stale)
    case BeginClose(c) =>
      if c !in w.leaf || c in w.closed then w
      else w.(pool := Forget(w.pool, c), closing := w.closing + {c})
    case EndClose(c) =>
      if c in w.closing then w.(closing := w.closing - {c}, closed := w.closed + {c}) else w
  }

  function Run(w: World, steps: seq<Step>): World
    decreases |steps|
  {
    if steps == [] then w else Run(Apply(w, steps[0]), steps[1..])
  }

  /** While a pin is in force, every registered connection presented exactly that leaf. */
  ghost predicate PinHeld(w: World) {
    w.pool.pin != "" ==> forall c | c in w.pool.conns :: c in w.leaf && w.leaf[c] == w.pool.pin
  }

  /** Every connection ever handed out is registered, being closed or closed, and only one of these. */
  ghost predicate Accounted(w: World) {
    && w.leaf.Keys == w.pool.conns + w.closing + w.closed
    && w.pool.conns !! w.closing
    && w.pool.conns !! w.closed
    && w.closing !! w.closed
  }

  /** A sweep takes only connections registered before it, and leaves none of those behind. */
  ghost predicate SweepsLookBack(w: World) {
    && w.bornAt.Keys == w.leaf.Keys
    && (forall c | c in w.sweptAt ::
              c in w.closing + w.closed && c in w.bornAt && w.bornAt[c] < w.sweptAt[c] <= w.sweeps)
    && (forall c | c in w.pool.conns :: c in w.bornAt && w.bornAt[c] == w.sweeps)
  }

  /** No connection registered under one pin is ever in the pool under another. */
  ghost predicate NeverCrossesPins(w: World) {
    && w.bornPin.Keys == w.leaf.Keys
    && (forall c | c in w.bornPin :: c in w.leaf && (w.bornPin[c] == "" || w.bornPin[c] == w.leaf[c]))
    && (forall c | c in w.pool.conns :: c in w.bornPin && w.bornPin[c] == w.pool.pin)
  }

  ghost predicate Safe(w: World) {
    PinHeld(w) && Accounted(w) && SweepsLookBack(w) && NeverCrossesPins(w)
  }

  lemma SweepKeepsSafe(w: World, pin: string)
    requires Safe(w)
    ensures Safe(Swept(w, PoolState(pin, {}), w.pool.conns))
  {
    var w' := Swept(w, PoolState(pin, {}), w.pool.conns);
    assert w'.leaf == w.leaf && w'.bornAt == w.bornAt && w'.bornPin == w.bornPin;
  }

  lemma DialKeepsSafe(w: World, d: Dial, c: Conn, observed: string)
    requires Safe(w)
    ensures Safe(Apply(w, EndDial(d, c, observed)))
  {
    var w' := Apply(w, EndDial(d, c, observed));
    if c in w'.leaf && c !in w.leaf {
      DialJudgement(w.dials[d], w.pool.pin, observed);
      var done := w.(dials := w.dials - {d});
      assert Safe(done);
      assert w' == Registered(done, c, observed);
      hide Apply, JudgeDial, FinishDial;
      RegisteredKeepsSafe(done, c, observed);
    }
  }

  /** An admitted dial puts its connection under the pin in force. */
  function Registered(w: World, c: Conn, observed: string): World {
    w.(pool := PoolState(w.pool.pin, w.pool.conns + {c}),
       leaf := w.leaf[c := observed],
       bornAt := w.bornAt[c := w.sweeps],
       bornPin := w.bornPin[c := w.pool.pin])
  }

  lemma RegisteredKeepsSafe(w: World, c: Conn, observed: string)
    requires Safe(w) && c !in w.leaf && (w.pool.pin == "" || w.pool.pin == observed)
    ensures Safe(Registered(w, c, observed))
  {
  }

  lemma CloseKeepsSafe(w: World, c: Conn)
    requires Safe(w)
    ensures Safe(Apply(w, BeginClose(c))) && Safe(Apply(w, EndClose(c)))
  {
  }

  lemma StepKeepsSafe(w: World, step: Step)
    requires Safe(w)
    ensures Safe(Apply(w, step))
  {
    match step
    case BeginDial(_) =>
    case AbortDial(_) =>
    case EndDial(d, c, observed) => DialKeepsSafe(w, d, c, observed);
    case SetPin(pin) => SweepKeepsSafe(w, pin);
    case CloseAll => SweepKeepsSafe(w, w.pool.pin);
    case BeginClose(c) => CloseKeepsSafe(w, c);
    case EndClose(c) => CloseKeepsSafe(w, c);
  }

  /** In every interleaving of dials, pin changes, sweeps and closes, at every moment. */
  lemma {:induction false} EveryRunIsSafe(w: World, steps: seq<Step>)
    requires Safe(w)
    ensures Safe(Run(w, steps))
    decreases |steps|
  {
    if steps != [] {
      StepKeepsSafe(w, steps[0]);
      EveryRunIsSafe(Apply(w, steps[0]), steps[1..]);
    }
  }

  /** A new pool, whatever is then done with it. */
  lemma PoolIsAlwaysSafe(steps: seq<Step>)
    ensures Safe(Run(Initial(), steps))
  {
    EveryRunIsSafe(Initial(), steps);
  }

  /**
   Setting the pin already in force touches nothing; a real change hands every
   registered connection, and nothing else, to the goroutine that closes it.
   */
  lemma SetPinSweepsIffItChanges(w: World, pin: string)
    ensures var w' := Apply(w, SetPin(pin));
            && w'.pool.pin == pin
            && (pin == w.pool.pin ==> w' == w)
            && (pin != w.pool.pin ==> w'.pool.conns == {} && w'.closing == w.closing + w.pool.conns)
            && w'.closed == w.closed && w'.leaf == w.leaf && w'.dials == w.dials
  {
  }

  /** A closeAll takes every registered connection under any pin; a close takes the one. */
  lemma ClosesTakeWhatTheyClose(w: World, c: Conn)
    ensures var w' := Apply(w, CloseAll);
            && w'.pool == PoolState(w.pool.pin, {}) && w'.closing == w.closing + w.pool.conns
            && w'.closed == w.closed && w'.dials == w.dials
    ensures c in w.leaf && c !in w.closed ==>
              var w' := Apply(w, BeginClose(c));
              && w'.pool == PoolState(w.pool.pin, w.pool.conns - {c}) && w'.closing == w.closing + {c}
              && w'.closed == w.closed && w'.dials == w.dials
    ensures c in w.closing ==> Apply(w, EndClose(c)).closed == w.closed + {c}
  {
  }

  /** A dial that fails is over: it touches no connection, and no end of it can register one. */
  lemma FailedDialIsOver(w: World, d: Dial, c: Conn, observed: string)
    ensures var w' := Apply(w, AbortDial(d));
            && w'.dials == w.dials - {d} && w'.pool == w.pool && w'.leaf == w.leaf
            && Apply(w', EndDial(d, c, observed)) == w'
  {
  }

  /** None of the steps finishes or aborts this dial. */
  ghost predicate LeavesDial(steps: seq<Step>, d: Dial) {
    forall i | 0 <= i < |steps| :: steps[i] != AbortDial(d) && !(steps[i].EndDial? && steps[i].dial == d)
  }

  lemma {:induction false} DialRemembersItsPin(w: World, steps: seq<Step>, d: Dial)
    requires d in w.dials && LeavesDial(steps, d)
    ensures d in Run(w, steps).dials && Run(w, steps).dials[d] == w.dials[d]
    decreases |steps|
  {
    if steps != [] {
      assert steps[0] != AbortDial(d) && !(steps[0].EndDial? && steps[0].dial == d);
      DialRemembersItsPin(Apply(w, steps[0]), steps[1..], d);
    }
  }

  /**
   A whole dial: whatever happens between its two lock holds, its connection is
   registered exactly when its leaf is the one pinned when it ends, or nothing is
   pinned at either end, and it is not another than the one pinned when it began.
   */
  lemma DialSpansItsPins(w: World, steps: seq<Step>, d: Dial, c: Conn, observed: string)
    requires Safe(w) && d !in w.dials && LeavesDial(steps, d) && observed != ""
    requires c !in Run(Apply(w, BeginDial(d)), steps).leaf
    ensures var w1 := Run(Apply(w, BeginDial(d)), steps);
            var w' := Apply(w1, EndDial(d, c, observed));
            && (c in w'.pool.conns <==>
                (w.pool.pin == "" || w.pool.pin == observed) &&
                (w1.pool.pin == observed || (w1.pool.pin == "" && w.pool.pin == "")))
            && (c in w'.pool.conns ==> w'.leaf == w1.leaf[c := observed])
  {
    var w0 := Apply(w, BeginDial(d));
    assert w0.dials[d] == w.pool.pin;
    StepKeepsSafe(w, BeginDial(d));
    EveryRunIsSafe(w0, steps);
    DialRemembersItsPin(w0, steps, d);
    hide Run;
    DialDecision(Run(w0, steps), d, c, observed);
  }

  /**
   What a finishing dial does to the world depends on the pin it read and the pin in force,
   whatever was in between.
   */
  lemma DialDecision(w: World, d: Dial, c: Conn, observed: string)
    requires Safe(w)
    requires d in w.dials && c !in w.leaf && observed != ""
    ensures var w' := Apply(w, EndDial(d, c, observed));
            && (c in w'.pool.conns <==>
                (w.dials[d] == "" || w.dials[d] == observed) &&
                (w.pool.pin == observed || (w.pool.pin == "" && w.dials[d] == "")))
            && w'.pool.conns - {c} == w.pool.conns && w'.pool.pin == w.pool.pin
            && d !in w'.dials && w'.closing == w.closing && w'.closed == w.closed
  {
    DialJudgement(w.dials[d], w.pool.pin, observed);
  }

  lemma StepKeepsGone(w: World, step: Step, c: Conn)
    requires c in w.closing + w.closed
    ensures var w' := Apply(w, step);
            c in w'.closing + w'.closed && (c in w.closed ==> c in w'.closed)
  {
  }

  /** A connection that left the pool never carries traffic for it again, and closed stays closed. */
  lemma {:induction false} GoneForGood(w: World, steps: seq<Step>, c: Conn)
    requires Safe(w) && c in w.closing + w.closed
    ensures var w' := Run(w, steps);
            c in w'.closing + w'.closed && c !in w'.pool.conns && (c in w.closed ==> c in w'.closed)
    decreases |steps|
  {
    if steps != [] {
      StepKeepsSafe(w, steps[0]);
      StepKeepsGone(w, steps[0], c);
      hide Apply;
      GoneForGood(Apply(w, steps[0]), steps[1..], c);
    }
  }

  // ---------------------------------------------------------------------
  // The objects
  // ---------------------------------------------------------------------

  /** An upstream connection the pool can reach to close; it counts the bytes that cross it. */
  class TrackedConn {
    const pool: Pool
    const leaf: string
    var forgotten: bool
    var open: bool
    var written: nat
    var read: nat

    constructor (pool: Pool, leaf: string)
      ensures this.pool == pool && this.leaf == leaf
      ensures open && !forgotten && Traffic() == 0
    {
      this.pool, this.leaf := pool, leaf;
      forgotten, open, written, read := false, true, 0, 0;
    }

    function Traffic(): nat
      reads this
    {
      written + read
    }

    /** The n bytes the network accepted, or delivered, are counted whatever the error was. */
    method Move(sent: nat, received: nat)
      modifies this`written, this`read
      ensures written == old(written) + sent && read == old(read) + received
      ensures Traffic() == old(Traffic()) + sent + received
    {
      written := written + sent;
      read := read + received;
    }

    /** Leaves the pool at most once, however often it is called. */
    method Close()
      modifies this`forgotten, this`open, pool`conns
      ensures forgotten && !open && pool.pin == old(pool.pin)
      ensures pool.conns == old(pool.conns) - if old(forgotten) then {} else {this}
      ensures pool.State() == if old(forgotten) then old(pool.State()) else Forget(old(pool.State()), this)
    {
      if !forgotten {
        forgotten := true;
        pool.ForgetConn(this);
      }
      open := false;
    }
  }

  class Pool {
    var pin: string
    var conns: set<TrackedConn>

    ghost function State(): PoolState<TrackedConn>
      reads this
    {
      PoolState(pin, conns)
    }

    ghost predicate Valid()
      reads this, conns
    {
      forall c | c in conns :: c.pool == this && c.open && !c.forgotten && (pin != "" ==> c.leaf == pin)
    }

    constructor ()
      ensures Valid() && State() == PoolState("", {})
    {
      pin, conns := "", {};
    }

    method ForgetConn(conn: TrackedConn)
      modifies this`conns
      ensures State() == Forget(old(State()), conn)
      ensures conns == old(conns) - {conn} && pin == old(pin)
    {
      conns := conns - {conn};
    }

    method TakeConns() returns (stale: set<TrackedConn>)
      modifies this`conns
      ensures (State(), stale) == Take(old(State()))
      ensures stale == old(conns) && conns == {} && pin == old(pin)
    {
      stale := conns;
      conns := {};
    }

    /** The closing half of a sweep, outside the lock: each Close calls back into the pool. */
    method CloseEach(stale: set<TrackedConn>)
      requires forall c | c in stale :: c.pool == this
      modifies this`conns, stale
      ensures pin == old(pin) && conns <= old(conns) && old(conns) - stale <= conns
      ensures forall c | c in stale :: !c.open && c.forgotten
    {
      var rest := stale;
      while rest != {}
        invariant rest <= stale
        invariant pin == old(pin) && conns <= old(conns) && old(conns) - stale <= conns
        invariant forall c | c in stale - rest :: !c.open && c.forgotten
        decreases |rest|
      {
        var c :| c in rest;
        c.Close();
        rest := rest - {c};
      }
    }

    /** A whole setPin with nothing interleaved: a real change closes every connection of the old pin. */
    method SetPin(newPin: string)
      requires Valid()
      modifies this, conns
      ensures Valid()
      ensures State() == FlipAndSweep(old(State()), newPin).0
      ensures pin == newPin
      ensures newPin == old(pin) ==> conns == old(conns) && forall c | c in old(conns) :: unchanged(c)
      ensures newPin != old(pin) ==> conns == {} && forall c | c in old(conns) :: !c.open && c.forgotten
    {
      var changed := pin != newPin;
      pin := newPin;
      if !changed {
        return;
      }
      var stale := TakeConns();
      CloseEach(stale);
    }

    method CloseAll()
      requires Valid()
      modifies this, conns
      ensures Valid() && State() == Take(old(State())).0
      ensures conns == {} && pin == old(pin)
      ensures forall c | c in old(conns) :: !c.open && c.forgotten
    {
      var stale := TakeConns();
      CloseEach(stale);
    }

    /** The first lock hold of a dial. */
    method BeginDialing() returns (start: string)
      ensures start == pin
    {
      start := pin;
    }

    /** The rest of a dial whose handshake, begun under `start`, observed this leaf. */
    method FinishDialing(start: string, observed: string) returns (conn: TrackedConn?, verdict: DialVerdict)
      requires Valid()
      modifies this`conns
      ensures Valid()
      ensures verdict == JudgeDial(start, pin, observed)
      ensures verdict.Admit? <==> conn != null
      ensures observed != "" ==>
                (conn != null <==>
                 (start == "" || start == observed) && (pin == observed || (pin == "" && start == "")))
      ensures pin == old(pin) && (conn == null ==> conns == old(conns))
      ensures conn != null ==> conns == old(conns) + {conn} && conn.pool == this
      ensures conn == null ==> State() == old(State())
      ensures conn != null ==>
                fresh(conn) && conn.leaf == observed &&
                    (State(), verdict) == FinishDial(old(State()), start, observed, conn)
    {
      if start != "" && start != observed {
        return null, Mismatch(start, observed);
      }
      if pin != start && pin != observed {
        return null, Mismatch(pin, observed);
      }
      conn := new TrackedConn(this, observed);
      conns := conns + {conn};
      verdict := Admit;
    }
  }
}
