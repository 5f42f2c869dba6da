/**
 One endpoint at runtime: listener, intent, generation, verdict and the
 single-flight guard around its verification.

 As for the pool, every lock hold is a function on the protected state, the class
 executes those functions on fields, and a step system interleaves them freely:
 operators, the reconcile loop, dying listeners, late releases, and any number of
 callers asking for a verification.
 */
module EndpointLifecycle {
  import opened Wrappers
  import UpstreamPool
  import opened AttestSchedule

  /** Times are the supervisor clock's. An empty string stands for no error and for no leaf. */
  datatype Verdict = Verdict(at: int, admitted: bool, stage: string, reason: string, leaf: string)

  datatype EndpointState<+Ch> = EndpointState(
    running: bool,
    wanted: bool,
    generation: nat,
    bindErr: string,
    serveErr: string,
    verdict: Option<Verdict>,
    firstVerdict: Ch,
    lastAttestAt: Option<int>,
    nextAttestAt: Option<int>,
    attesting: bool,
    attestDone: Option<Ch>)

  // ---------------------------------------------------------------------
  // The critical sections
  // ---------------------------------------------------------------------

  datatype Bind = Bound | Refused(err: string)

  datatype StartOutcome<+Ch> = StartOutcome(ep: EndpointState<Ch>, started: bool, err: string, report: bool)

  /** startListener; `bind` is what listening on the address answers, should it come to that. */
  function StartSection<Ch>(
      s: EndpointState<Ch>, onlyIfWanted: bool, reportRepeated: bool, bind: Bind): StartOutcome<Ch>
  {
    if s.running || (onlyIfWanted && !s.wanted) then
      StartOutcome(s, false, "", false)
    else
      match bind
      case Refused(err) =>
        StartOutcome(s.(bindErr := err), false, err, reportRepeated || s.bindErr != err)
      case Bound =>
        StartOutcome(s.(running := true, bindErr := "", serveErr := "", generation := s.generation + 1),
                     true, "", false)
  }

  /** The listener is gone: no verdict is kept, and whoever waits for the next first one waits on a new channel. */
  function Torn<Ch>(s: EndpointState<Ch>, next: Ch): EndpointState<Ch> {
    s.(running := false, generation := s.generation + 1, verdict := None, firstVerdict := next,
       lastAttestAt := None, nextAttestAt := None)
  }

  /** The generation a teardown ends in is what its later release is held to. */
  function StopSection<Ch>(s: EndpointState<Ch>, next: Ch): (EndpointState<Ch>, Option<nat>) {
    if !s.running then (s, None) else (Torn(s, next), Some(s.generation + 1))
  }

  function ServeFailedSection<Ch>(s: EndpointState<Ch>, generation: nat, err: string, next: Ch)
    : (EndpointState<Ch>, Option<nat>)
  {
    if !s.running || s.generation != generation then (s, None)
    else (Torn(s, next).(serveErr := err), Some(s.generation + 1))
  }

  predicate ReleaseActs<Ch>(s: EndpointState<Ch>, generation: nat) {
    s.generation == generation
  }

  datatype BeginOutcome<+Ch> = Reuse(verdict: Verdict) | Join(waiting: Option<Ch>) | Fly(done: Ch, generation: nat)

  function BeginSection<Ch>(
      s: EndpointState<Ch>, now: int, reuse: int, next: Ch): (EndpointState<Ch>, BeginOutcome<Ch>)
  {
    if reuse > 0 && s.verdict.Some? && now - s.verdict.value.at < reuse then
      (s, Reuse(s.verdict.value))
    else if s.attesting then
      (s, Join(s.attestDone))
    else
      (s.(attesting := true, attestDone := Some(next)), Fly(next, s.generation))
  }

  datatype FinishOutcome = Discarded | Installed(previous: Option<Verdict>, closesFirst: bool)

  /** `firstClosed` is whether the current first-verdict channel is closed already. */
  function FinishSection<Ch>(s: EndpointState<Ch>, generation: nat, result: Verdict, firstClosed: bool)
    : (EndpointState<Ch>, FinishOutcome)
  {
    if s.generation != generation then (s.(attesting := false), Discarded)
    else
      (s.(verdict := Some(result), lastAttestAt := Some(result.at), attesting := false),
       Installed(s.verdict, !firstClosed))
  }

  function ArmSection<Ch>(s: EndpointState<Ch>, now: int, delay: int): EndpointState<Ch> {
    if s.running then s.(nextAttestAt := Some(now + delay)) else s
  }

  datatype Health = Broken | Stopped | Attesting | Confidential | NonConfidential

  function Snapshot<Ch>(s: EndpointState<Ch>, failOpen: bool): Health {
    if s.bindErr != "" then Broken
    else if s.serveErr != "" then Broken
    else if !s.running then Stopped
    else if s.verdict.None? then Attesting
    else if s.verdict.value.admitted then Confidential
    else if failOpen then NonConfidential
    else Broken
  }

  /** The leaf the admitted pool is held to under a verdict. */
  function PinOf(v: Verdict): string {
    if v.admitted then v.leaf else ""
  }

  // ---------------------------------------------------------------------
  // Interleavings
  // ---------------------------------------------------------------------

  type Chan = nat
  type FlightId = nat

  /** A verification in the air; `epoch` is how many teardowns had happened when it began. */
  datatype Flight = Flight(generation: nat, done: Chan, epoch: nat, began: int, answer: Option<Verdict>)

  datatype Started = Started(generation: nat, window: int, time: int)

  /**
   `unclosed` are the done channels whose flights have landed but not yet closed
   them, `pending` the installed verdicts not yet applied to the pool, oldest first,
   `torn` the releases still to come, `drains` how many denials have yet to close the
   admitted pool, `opens` the generations in which the admitted
   pool's open connections were opened. `epoch`, `applied` and `starts` are history.
   */
  datatype World = World(
    ep: EndpointState<Chan>,
    now: int,
    chans: nat,
    closed: set<Chan>,
    unclosed: set<Chan>,
    panicked: bool,
    flights: map<FlightId, Flight>,
    pending: seq<Verdict>,
    pin: string,
    torn: set<nat>,
    drains: nat,
    opens: set<nat>,
    teardowns: nat,
    epoch: nat,
    applied: Option<Verdict>,
    starts: seq<Started>)

  datatype Step =
    | Start(onlyIfWanted: bool, reportRepeated: bool, bind: Bind)
    | Stop
    | ServeFail(generation: nat, err: string)
    | Release(generation: nat)
    | SetDesired(wanted: bool)
    | OpenConn
    | BeginAttest(flight: FlightId, reuse: int)
    | Answer(flight: FlightId, admitted: bool, stage: string, reason: string, leaf: string)
    | Land(flight: FlightId)
    | CloseDone(done: Chan)
    | ApplyVerdict(index: nat, failClosed: bool)
    | DrainPool
    | ArmNext(delay: int)
    | Tick(elapsed: nat)

  function Initial(now: int): World {
    World(EndpointState(false, true, 0, "", "", None, 0, None, None, false, None),
          now, 1, {}, {}, false, map[], [], "", {}, 0, {}, 0, 0, None, [])
  }

  /** Closing a closed channel is a crash. */
  function CloseChan(w: World, c: Chan): World {
    if c in w.closed then w.(panicked := true) else w.(closed := w.closed + {c})
  }

  function TearDown(w: World, out: (EndpointState<Chan>, Option<nat>)): World {
    if out.1.None? then w
    else w.(ep := out.0, chans := w.chans + 1, torn := w.torn + {out.1.value}, teardowns := w.teardowns + 1)
  }

  function LandFlight(w: World, f: FlightId): World
    requires f in w.flights && w.flights[f].answer.Some?
  {
    var flight := w.flights[f];
    var result := flight.answer.value;
    var (ep, outcome) := FinishSection(w.ep, flight.generation, result, w.ep.firstVerdict in w.closed);
    var landed := w.(ep := ep, flights := w.flights - {f}, unclosed := w.unclosed + {flight.done});
    if outcome.Discarded? then landed
    else
      var told := if outcome.closesFirst then CloseChan(landed, w.ep.firstVerdict) else landed;
      told.(pending := w.pending + [result], epoch := flight.epoch)
  }

  function BeginFlight(w: World, f: FlightId, reuse: int): World {
    var (ep, outcome) := BeginSection(w.ep, w.now, reuse, w.chans);
    if !outcome.Fly? then w
    else
      w.(ep := ep,
         chans := w.chans + 1,
         flights := w.flights[f := Flight(outcome.generation, w.chans, w.teardowns, w.now, None)],
         starts := w.starts + [Started(outcome.generation, reuse, w.now)])
  }

  /**
   The pin of a verdict is one lock hold of the pool; the closeAll of a denial under fail-
   closed is another, later.
   */
  function ApplyPending(w: World, i: nat, failClosed: bool): World
    requires i < |w.pending|
  {
    var v := w.pending[i];
    w.(pending := w.pending[..i] + w.pending[i + 1..],
       pin := PinOf(v),
       applied := Some(v),
       drains := if !v.admitted && failClosed then w.drains + 1 else w.drains,
       opens := if PinOf(v) != w.pin then {} else w.opens)
  }

  /** One atomic step; a step that is not enabled changes nothing. */
  function Apply(w: World, step: Step): World {
    match step
    case Start(onlyIfWanted, reportRepeated, bind) =>
      if bind == Refused("") then w
      else w.(ep := StartSection(w.ep, onlyIfWanted, reportRepeated, bind).ep)
    case Stop => TearDown(w, StopSection(w.ep, w.chans))
    case ServeFail(generation, err) =>
      if err == "" then w else TearDown(w, ServeFailedSection(w.ep, generation, err, w.chans))
    case Release(generation) =>
      if generation !in w.torn then w
      else w.(torn := w.torn - {generation}, opens := if ReleaseActs(w.ep, generation) then {} else w.opens)
    case SetDesired(wanted) => w.(ep := w.ep.(wanted := wanted))
    case OpenConn => w.(opens := w.opens + {w.ep.generation})
    case BeginAttest(f, reuse) => if f in w.flights then w else BeginFlight(w, f, reuse)
    case Answer(f, admitted, stage, reason, leaf) =>
      if f !in w.flights || w.flights[f].answer.Some? then w
      else w.(flights := w.flights[f := w.flights[f].(answer := Some(Verdict(w.now, admitted, stage, reason, leaf)))])
    case Land(f) => if f in w.flights && w.flights[f].answer.Some? then LandFlight(w, f) else w
    case CloseDone(done) => if done in w.unclosed then CloseChan(w.(unclosed := w.unclosed - {done}), done) else w
    case ApplyVerdict(i, failClosed) => if i < |w.pending| then ApplyPending(w, i, failClosed) else w
    case DrainPool => if w.drains > 0 then w.(drains := w.drains - 1, opens := {}) else w
    case ArmNext(delay) => w.(ep := ArmSection(w.ep, w.now, delay))
    case Tick(elapsed) => w.(now := w.now + elapsed)
  }

  function Run(w: World, steps: seq<Step>): World
    decreases |steps|
  {
    if steps == [] then w else Run(Apply(w, steps[0]), steps[1..])
  }

  // ---------------------------------------------------------------------
  // What every run keeps
  // ---------------------------------------------------------------------

  /**
   The generation is odd exactly while running; a running endpoint carries no listener error,
   and only it has a next verification.
   */
  ghost predicate Lifecycle(w: World) {
    && (w.ep.running <==> w.ep.generation % 2 == 1)
    && w.teardowns == w.ep.generation / 2
    && (w.ep.running ==> w.ep.bindErr == "" && w.ep.serveErr == "")
    && (w.ep.nextAttestAt.Some? ==> w.ep.running)
  }

  /** At most one verification is in the air, across restarts too, and `attesting` says whether one is. */
  ghost predicate SingleFlight(w: World) {
    && (w.ep.attesting <==> w.flights != map[])
    && (forall f, g | f in w.flights && g in w.flights :: f == g)
    && (forall f | f in w.flights :: Some(w.flights[f].done) == w.ep.attestDone)
  }

  /** No verdict outlives the teardown that followed the start of its verification. */
  ghost predicate VerdictIsCurrent(w: World) {
    && (w.ep.verdict.Some? ==> w.epoch == w.teardowns)
    && w.ep.lastAttestAt == (if w.ep.verdict.Some? then Some(w.ep.verdict.value.at) else None)
    && (forall f | f in w.flights ::
          w.flights[f].generation <= w.ep.generation && w.flights[f].epoch == w.flights[f].generation / 2)
  }

  /** The first-verdict channel is closed exactly when a verdict is held, and no channel is closed twice. */
  ghost predicate ChannelsSound(w: World) {
    && !w.panicked
    && (w.ep.verdict.Some? <==> w.ep.firstVerdict in w.closed)
    && w.ep.firstVerdict < w.chans && w.ep.firstVerdict !in w.unclosed
    && w.closed !! w.unclosed
    && (forall c | c in w.closed :: c < w.chans)
    && (forall c | c in w.unclosed :: c < w.chans)
    && (forall f | f in w.flights ::
          var done := w.flights[f].done;
          done < w.chans && done != w.ep.firstVerdict && done !in w.closed && done !in w.unclosed)
  }

  ghost predicate Sound(w: World) {
    Lifecycle(w) && SingleFlight(w) && VerdictIsCurrent(w) && ChannelsSound(w)
  }

  lemma TearDownKeepsSound(w: World, err: string)
    requires Sound(w) && w.ep.running
    ensures Sound(TearDown(w, (Torn(w.ep, w.chans), Some(w.ep.generation + 1))))
    ensures Sound(TearDown(w, (Torn(w.ep, w.chans).(serveErr := err), Some(w.ep.generation + 1))))
  {
  }

  lemma BeginKeepsSound(w: World, f: FlightId, reuse: int)
    requires Sound(w) && f !in w.flights
    ensures Sound(BeginFlight(w, f, reuse))
  {
  }

  lemma LandKeepsSound(w: World, f: FlightId)
    requires Sound(w) && f in w.flights && w.flights[f].answer.Some?
    ensures Sound(LandFlight(w, f))
  {
    assert forall g | g in w.flights :: g == f;
    assert LandFlight(w, f).flights == map[];
    LandKeepsChannels(w, f);
    hide ChannelsSound;
  }

  lemma LandKeepsChannels(w: World, f: FlightId)
    requires Sound(w) && f in w.flights && w.flights[f].answer.Some?
    ensures ChannelsSound(LandFlight(w, f))
  {
    hide Lifecycle, VerdictIsCurrent;
  }

  lemma CloseKeepsSound(w: World, done: Chan)
    requires Sound(w)
    ensures Sound(Apply(w, CloseDone(done)))
  {
  }

  lemma StartKeepsSound(w: World, onlyIfWanted: bool, reportRepeated: bool, bind: Bind)
    requires Sound(w)
    ensures Sound(Apply(w, Start(onlyIfWanted, reportRepeated, bind)))
  {
  }

  lemma AnswerKeepsSound(w: World, step: Step)
    requires Sound(w) && step.Answer?
    ensures Sound(Apply(w, step))
  {
  }

  lemma StepKeepsSound(w: World, step: Step)
    requires Sound(w)
    ensures Sound(Apply(w, step))
  {
    match step
    case Start(onlyIfWanted, reportRepeated, bind) => StartKeepsSound(w, onlyIfWanted, reportRepeated, bind);
    case Stop => if w.ep.running { TearDownKeepsSound(w, ""); }
    case ServeFail(_, err) => if w.ep.running { TearDownKeepsSound(w, err); }
    case BeginAttest(f, reuse) => if f !in w.flights { BeginKeepsSound(w, f, reuse); }
    case Answer(_, _, _, _, _) => AnswerKeepsSound(w, step);
    case Land(f) => if f in w.flights && w.flights[f].answer.Some? { LandKeepsSound(w, f); }
    case CloseDone(done) => CloseKeepsSound(w, done);
    case _ => OthersKeepSound(w, step);
  }

  lemma OthersKeepSound(w: World, step: Step)
    requires Sound(w)
    requires step.Release? || step.SetDesired? || step.OpenConn? || step.ApplyVerdict? || step.DrainPool? ||
             step.ArmNext? || step.Tick?
    ensures Sound(Apply(w, step))
  {
  }

  /** What a step can do to the clock, the generation and the history. */
  lemma StepEffects(w: World, step: Step)
    ensures var w' := Apply(w, step);
            && w.now <= w'.now
            && w.ep.generation <= w'.ep.generation
            && (step.BeginAttest? || w'.starts == w.starts)
            && (step.BeginAttest? || step.Land? || step.Answer? || w'.flights == w.flights)
            && (step.Land? || w'.ep.generation > w.ep.generation || w'.ep.verdict == w.ep.verdict)
            && (w'.ep.verdict == w.ep.verdict || w'.ep.verdict.None? || step.Land?)
  {
    match step
    case Start(_, _, _) =>
    case Stop =>
    case ServeFail(_, _) =>
    case Release(_) =>
    case SetDesired(_) =>
    case OpenConn =>
    case BeginAttest(_, _) =>
    case Answer(_, _, _, _, _) =>
    case Land(_) =>
    case CloseDone(_) =>
    case ApplyVerdict(_, _) =>
    case DrainPool =>
    case ArmNext(_) =>
    case Tick(_) =>
  }

  /** Over all runs of starts, stops, serve failures, releases and overlapping verifications. */
  lemma {:induction false} EveryRunIsSound(w: World, steps: seq<Step>)
    requires Sound(w)
    ensures Sound(Run(w, steps))
    decreases |steps|
  {
    if steps != [] {
      StepKeepsSound(w, steps[0]);
      EveryRunIsSound(Apply(w, steps[0]), steps[1..]);
    }
  }

  /** What a dashboard is told follows from the invariant: confidential means serving on an admitting verdict. */
  lemma ConfidentialMeansServing(now: int, steps: seq<Step>, failOpen: bool)
    ensures var s := Run(Initial(now), steps).ep;
            && (Snapshot(s, failOpen) == Confidential <==> s.running && s.verdict.Some? && s.verdict.value.admitted)
            && (Snapshot(s, failOpen) == NonConfidential <==>
                s.running && s.verdict.Some? && !s.verdict.value.admitted && failOpen)
            && (Snapshot(s, failOpen) == Stopped <==> !s.running && s.bindErr == "" && s.serveErr == "")
            && (Snapshot(s, failOpen) == Attesting <==> s.running && s.verdict.None?)
            && (Snapshot(s, failOpen) == Broken <==>
                if s.running then s.verdict.Some? && !s.verdict.value.admitted && !failOpen
                else s.bindErr != "" || s.serveErr != "")
  {
    EveryRunIsSound(Initial(now), steps);
  }

  ghost predicate Promised(w: World, done: Chan) {
    done in w.closed + w.unclosed || (exists f :: f in w.flights && w.flights[f].done == done)
  }

  lemma StepKeepsPromise(w: World, step: Step, done: Chan)
    requires Sound(w) && Promised(w, done)
    ensures Promised(Apply(w, step), done)
  {
    StepKeepsSound(w, step);
    var w' := Apply(w, step);
    match step
    case BeginAttest(f, reuse) =>
      assert forall g | g in w.flights :: g in w'.flights && w'.flights[g] == w.flights[g];
    case Answer(_, _, _, _, _) =>
      assert forall g | g in w.flights :: g in w'.flights && w'.flights[g].done == w.flights[g].done;
    case Land(f) =>
      assert forall g | g in w.flights :: g == f || g in w'.flights;
    case CloseDone(_) =>
    case Start(_, _, _) =>
    case Stop =>
    case ServeFail(_, _) =>
    case Release(_) =>
    case SetDesired(_) =>
    case OpenConn =>
    case ApplyVerdict(_, _) =>
    case DrainPool =>
    case ArmNext(_) =>
    case Tick(_) =>
  }

  /** Joining a verification is waiting for one that is in the air, and its channel is closed once it has landed. */
  lemma {:induction false} NoWaiterIsForgotten(w: World, steps: seq<Step>, done: Chan)
    requires Sound(w) && Promised(w, done)
    ensures var w' := Run(w, steps);
            Promised(w', done) && (w'.flights == map[] && w'.unclosed == {} ==> done in w'.closed)
    decreases |steps|
  {
    if steps != [] {
      StepKeepsSound(w, steps[0]);
      StepKeepsPromise(w, steps[0], done);
      NoWaiterIsForgotten(Apply(w, steps[0]), steps[1..], done);
    }
  }

  lemma JoinersWaitForTheFlight(w: World, reuse: int)
    requires Sound(w)
    ensures BeginSection(w.ep, w.now, reuse, w.chans).1.Join? ==>
              exists f :: f in w.flights &&
                  BeginSection(w.ep, w.now, reuse, w.chans).1.waiting == Some(w.flights[f].done)
  {
    if w.ep.attesting {
      var f :| f in w.flights;
    }
  }

  /** Young enough to answer a request with window r without asking again. */
  predicate Younger(v: Option<Verdict>, now: int, r: int) {
    r > 0 && v.Some? && now - v.value.at < r
  }

  /**
   After every run: a request with window r starts a verification exactly when none is
   in the air and no verdict younger than r is held; with no window, exactly when none is
   in the air. A request that does not start one changes nothing.
   */
  lemma OnDemandStartsIff(now: int, steps: seq<Step>, f: FlightId, r: int)
    ensures var w := Run(Initial(now), steps);
            var w' := Apply(w, BeginAttest(f, r));
            f !in w.flights ==>
              && (f in w'.flights <==> w.flights == map[] && !Younger(w.ep.verdict, w.now, r))
              && (f in w'.flights ==>
                    w'.flights[f] == Flight(w.ep.generation, w.chans, w.teardowns, w.now, None) &&
                    w'.starts == w.starts + [Started(w.ep.generation, r, w.now)])
              && (f !in w'.flights ==> w' == w)
  {
    EveryRunIsSound(Initial(now), steps);
    hide Run, ChannelsSound, Lifecycle, VerdictIsCurrent;
  }

  /** What the caller is told: a young verdict as it is, else the flight in the air, else that it flies. */
  lemma BeginAnswers(w: World, r: int)
    requires Sound(w)
    ensures var answer := BeginSection(w.ep, w.now, r, w.chans).1;
            && (answer.Reuse? <==> Younger(w.ep.verdict, w.now, r))
            && (answer.Reuse? ==> Some(answer.verdict) == w.ep.verdict)
            && (answer.Join? <==> !Younger(w.ep.verdict, w.now, r) && w.flights != map[])
            && (answer.Join? ==> answer.waiting == w.ep.attestDone)
            && (answer.Fly? ==> answer.done == w.chans && answer.generation == w.ep.generation)
  {
  }

  // What a joiner finds when the flight has landed

  /** Nothing lands while an older flight is in the air, so after a teardown no verdict is in force until it has. */
  ghost predicate OldFlightsHoldTheGuard(w: World) {
    Sound(w) && forall f | f in w.flights && w.flights[f].epoch < w.teardowns :: w.ep.verdict.None?
  }

  lemma StepKeepsTheGuardHeld(w: World, step: Step)
    requires OldFlightsHoldTheGuard(w)
    ensures OldFlightsHoldTheGuard(Apply(w, step))
  {
    StepKeepsSound(w, step);
    StepEffects(w, step);
    hide ChannelsSound;
    match step
    case Start(_, _, _) =>
    case Stop =>
    case ServeFail(_, _) =>
    case Release(_) =>
    case SetDesired(_) =>
    case OpenConn =>
    case BeginAttest(_, _) =>
    case Answer(_, _, _, _, _) =>
    case Land(_) =>
    case CloseDone(_) =>
    case ApplyVerdict(_, _) =>
    case DrainPool =>
    case ArmNext(_) =>
    case Tick(_) =>
  }

  lemma {:induction false} EveryRunHoldsTheGuard(w: World, steps: seq<Step>)
    requires OldFlightsHoldTheGuard(w)
    ensures OldFlightsHoldTheGuard(Run(w, steps))
    decreases |steps|
  {
    if steps != [] {
      StepKeepsTheGuardHeld(w, steps[0]);
      EveryRunHoldsTheGuard(Apply(w, steps[0]), steps[1..]);
    }
  }

  /**
   Whoever joined a flight finds its answer in force when it lands exactly when the
   generation has not moved since it took off; if there was a teardown in between, it
   finds no verdict at all.
   */
  lemma JoinersFind(now: int, steps: seq<Step>, f: FlightId)
    ensures var w := Run(Initial(now), steps);
            f in w.flights && w.flights[f].answer.Some? ==>
              var flight, w' := w.flights[f], Apply(w, Land(f));
              && (w'.pending == w.pending + [flight.answer.value] <==> flight.generation == w.ep.generation)
              && w'.ep.verdict == (if flight.generation == w.ep.generation then flight.answer else w.ep.verdict)
              && (flight.epoch < w.teardowns ==> w'.ep.verdict.None?)
  {
    EveryRunHoldsTheGuard(Initial(now), steps);
    var w := Run(Initial(now), steps);
    assert forall v: Verdict :: |w.pending + [v]| == |w.pending| + 1;
  }

  /** A stop and a start while a verification is in the air, and the new listener's loop joining it. */
  function RestartMidFlight(interval: nat): seq<Step> {
    [Start(false, true, Bound), BeginAttest(1, 0), Stop,
     Start(false, true, Bound), BeginAttest(2, 0), Answer(1, true, "", "", "leaf"),
     Land(1), CloseDone(1), ArmNext(interval)]
  }

  /**
   It leaves the endpoint running with no verdict and nobody verifying: the first
   verification of the new listener's loop was that join, it found nothing, and after
   nothing the schedule waits a whole re-attest interval.
   */
  lemma RestartMidFlightStaysUnverified(now: int, backoff: nat, override: int, interval: nat)
    ensures var w4 := Run(Initial(now), RestartMidFlight(interval)[..4]);
            var w := Run(Initial(now), RestartMidFlight(interval));
            && BeginSection(w4.ep, w4.now, 0, w4.chans).1 == Join(Some(1))
            && w.ep.running && w.ep.verdict.None? && w.flights == map[] && w.unclosed == {} && 1 in w.closed
            && NextSection(backoff, NoVerdict, override, interval).1 == interval &&
                      w.ep.nextAttestAt == Some(now + interval)
  {
    hide Run, Apply, BeginSection;
    var s := RestartMidFlight(interval);
    var w3 := TakeOffAndStop(now, s);
    var w6 := RestartAndJoin(w3, now, s[3..]);
    assert s[3..][3..] == s[6..];
    LandForNobody(w6, interval, s[6..]);
    assert s[..4] == [Start(false, true, Bound), BeginAttest(1, 0), Stop, Start(false, true, Bound)];
    RestartJoins(now, s[..4]);
  }

  lemma RestartJoins(now: int, steps: seq<Step>)
    requires steps == [Start(false, true, Bound), BeginAttest(1, 0), Stop, Start(false, true, Bound)]
    ensures var w := Run(Initial(now), steps);
            BeginSection(w.ep, w.now, 0, w.chans).1 == Join(Some(1))
  {
    var w3 := TakeOffAndStop(now, steps);
    assert steps[3..] == [steps[3]] && [steps[3]][1..] == [];
    assert Run(w3, [steps[3]]) == Apply(w3, steps[3]);
  }

  lemma TakeOffAndStop(now: int, steps: seq<Step>) returns (w: World)
    requires |steps| >= 3 && steps[..3] == [Start(false, true, Bound), BeginAttest(1, 0), Stop]
    ensures Run(Initial(now), steps) == Run(w, steps[3..])
    ensures !w.ep.running && w.ep.generation == 2 && w.ep.verdict.None? && w.ep.attesting && w.ep.attestDone == Some(1)
    ensures w.flights == map[1 := Flight(1, 1, 0, now, None)] && w.closed == {} && w.unclosed == {} && w.now == now
  {
    RunThree(Initial(now), steps);
    assert steps[0] == steps[..3][0] && steps[1] == steps[..3][1] && steps[2] == steps[..3][2];
    w := Apply(Apply(Apply(Initial(now), steps[0]), steps[1]), steps[2]);
  }

  lemma RestartAndJoin(w: World, now: int, steps: seq<Step>) returns (w': World)
    requires |steps| >= 3
    requires steps[..3] == [Start(false, true, Bound), BeginAttest(2, 0), Answer(1, true, "", "", "leaf")]
    requires !w.ep.running && w.ep.generation == 2 && w.ep.verdict.None? && w.ep.attesting
    requires w.flights == map[1 := Flight(1, 1, 0, now, None)] && w.closed == {} && w.unclosed == {}
    ensures Run(w, steps) == Run(w', steps[3..])
    ensures w'.ep.running && w'.ep.generation == 3 && w'.ep.verdict.None? && w'.closed == {} && w'.unclosed == {}
    ensures w'.now == w.now
    ensures w'.flights == map[1 := Flight(1, 1, 0, now, Some(Verdict(w.now, true, "", "", "leaf")))]
  {
    RunThree(w, steps);
    assert steps[0] == steps[..3][0] && steps[1] == steps[..3][1] && steps[2] == steps[..3][2];
    w' := Apply(Apply(Apply(w, steps[0]), steps[1]), steps[2]);
  }

  lemma LandForNobody(w: World, interval: nat, steps: seq<Step>)
    requires steps == [Land(1), CloseDone(1), ArmNext(interval)]
    requires w.ep.running && w.ep.generation == 3 && w.ep.verdict.None? && w.closed == {} && w.unclosed == {}
    requires w.flights.Keys == {1} && w.flights[1].generation == 1 && w.flights[1].done == 1 &&
              w.flights[1].answer.Some?
    ensures var w' := Run(w, steps);
            && w'.ep.running && w'.ep.verdict.None? && w'.flights == map[] && w'.unclosed == {} && 1 in w'.closed
            && w'.ep.nextAttestAt == Some(w.now + interval)
  {
    RunThree(w, steps);
    var w1 := Apply(w, steps[0]);
    assert w1.flights.Keys == {};
  }

  // ---------------------------------------------------------------------
  // Older generations
  // ---------------------------------------------------------------------

  lemma {:induction false} GenerationOnlyGrows(w: World, steps: seq<Step>)
    ensures w.ep.generation <= Run(w, steps).ep.generation
    decreases |steps|
  {
    if steps != [] {
      StepEffects(w, steps[0]);
      GenerationOnlyGrows(Apply(w, steps[0]), steps[1..]);
    }
  }

  /**
   Once the generation has moved past g, a Serve that reports its failure for g, a
   release owed by g and a verification begun in g are all without effect, for ever:
   the release closes nothing, and the landing only frees the single-flight guard.
   */
  lemma OlderGenerationsAreHarmless(w: World, steps: seq<Step>, g: nat, err: string, f: FlightId)
    requires Sound(w) && g < w.ep.generation
    ensures var w' := Run(w, steps);
            && Apply(w', ServeFail(g, err)) == w'
            && Apply(w', Release(g)) == w'.(torn := w'.torn - {g})
            && (f in w'.flights && w'.flights[f].generation == g && w'.flights[f].answer.Some? ==>
                Apply(w', Land(f)) == w'.(ep := w'.ep.(attesting := false), flights := w'.flights - {f},
                                          unclosed := w'.unclosed + {w'.flights[f].done}))
  {
    GenerationOnlyGrows(w, steps);
    var w' := Run(w, steps);
    assert g !in w'.torn ==> w'.torn - {g} == w'.torn;
  }

  /** A release that does act finds the endpoint down and closes connections of finished generations only. */
  lemma ReleaseActsOnlyWhenDown(now: int, steps: seq<Step>, g: nat)
    ensures var w := Run(Initial(now), steps);
            g in w.torn && ReleaseActs(w.ep, g) ==> !w.ep.running && forall o | o in w.opens :: o <= g
  {
    EveryRunReleasesLate(Initial(now), steps);
  }

  ghost predicate ReleasesLate(w: World) {
    && Sound(w)
    && (forall g | g in w.torn :: g % 2 == 0 && g <= w.ep.generation)
    && (forall o | o in w.opens :: o <= w.ep.generation)
  }

  lemma StepKeepsReleasesLate(w: World, step: Step)
    requires ReleasesLate(w)
    ensures ReleasesLate(Apply(w, step))
  {
    StepKeepsSound(w, step);
    StepEffects(w, step);
    match step
    case Start(_, _, _) =>
    case Stop =>
    case ServeFail(_, _) =>
    case Release(_) =>
    case SetDesired(_) =>
    case OpenConn =>
    case BeginAttest(_, _) =>
    case Answer(_, _, _, _, _) =>
    case Land(_) =>
    case CloseDone(_) =>
    case ApplyVerdict(_, _) =>
    case DrainPool =>
    case ArmNext(_) =>
    case Tick(_) =>
  }

  lemma {:induction false} EveryRunReleasesLate(w: World, steps: seq<Step>)
    requires ReleasesLate(w)
    ensures ReleasesLate(Run(w, steps))
    decreases |steps|
  {
    if steps != [] {
      StepKeepsReleasesLate(w, steps[0]);
      EveryRunReleasesLate(Apply(w, steps[0]), steps[1..]);
    }
  }

  /** A start that binds: it succeeds on an endpoint that is down. */
  predicate Binds(w: World, step: Step) {
    step.Start? && !w.ep.running && Apply(w, step).ep.running
  }

  ghost predicate BoundSince(w: World, steps: seq<Step>)
    decreases |steps|
  {
    steps != [] && (Binds(w, steps[0]) || BoundSince(Apply(w, steps[0]), steps[1..]))
  }

  /** An endpoint that is down keeps its generation until a start binds, and has passed it for good after. */
  lemma {:induction false} GenerationTellsStarts(w: World, steps: seq<Step>)
    requires Sound(w) && !w.ep.running
    ensures BoundSince(w, steps) <==> Run(w, steps).ep.generation > w.ep.generation
    ensures !BoundSince(w, steps) ==> Run(w, steps).ep.generation == w.ep.generation && !Run(w, steps).ep.running
    decreases |steps|
  {
    if steps != [] {
      var w1 := Apply(w, steps[0]);
      StepKeepsSound(w, steps[0]);
      DownUntilBound(w, steps[0]);
      hide Apply, Sound;
      if Binds(w, steps[0]) {
        GenerationOnlyGrows(w1, steps[1..]);
      } else {
        GenerationTellsStarts(w1, steps[1..]);
      }
    }
  }

  lemma DownUntilBound(w: World, step: Step)
    requires Sound(w) && !w.ep.running
    ensures var w' := Apply(w, step);
            if Binds(w, step) then w'.ep.generation > w.ep.generation
            else !w'.ep.running && w'.ep.generation == w.ep.generation
  {
    hide ChannelsSound, SingleFlight, VerdictIsCurrent;
  }

  /**
   A teardown owes a release. Whenever it comes, it closes every connection exactly if
   no start has bound since that teardown; if one has, it touches none. Either way it is
   owed no more.
   */
  lemma ReleaseClosesUnlessRestarted(w: World, steps: seq<Step>)
    requires Sound(w) && !w.ep.running && w.ep.generation in w.torn
    ensures var g, w1 := w.ep.generation, Run(w, steps);
            g in w1.torn ==>
              var w' := Apply(w1, Release(g));
              && w'.opens == (if BoundSince(w, steps) then w1.opens else {})
              && w'.torn == w1.torn - {g}
  {
    GenerationTellsStarts(w, steps);
    hide Run, BoundSince, Sound;
  }

  /** What takes a listener down, in full: which endpoints, what of them is left, and what is owed. */
  lemma TeardownsTakeDown(w: World, g: nat, err: string)
    requires Sound(w)
    ensures !w.ep.running ==> Apply(w, Stop) == w && Apply(w, ServeFail(g, err)) == w
    ensures w.ep.generation != g ==> Apply(w, ServeFail(g, err)) == w
    ensures w.ep.running ==> TakenDown(w, Apply(w, Stop), w.ep.serveErr)
    ensures w.ep.running && w.ep.generation == g && err != "" ==> TakenDown(w, Apply(w, ServeFail(g, err)), err)
  {
  }

  ghost predicate TakenDown(w: World, w': World, serveErr: string) {
    && !w'.ep.running && w'.ep.wanted == w.ep.wanted && w'.ep.generation == w.ep.generation + 1
    && w'.ep.bindErr == w.ep.bindErr && w'.ep.serveErr == serveErr
    && w'.ep.verdict.None? && w'.ep.lastAttestAt.None? && w'.ep.nextAttestAt.None?
    && w'.ep.firstVerdict == w.chans && w'.ep.firstVerdict !in w'.closed
    && w'.ep.attesting == w.ep.attesting && w'.ep.attestDone == w.ep.attestDone
    && w'.torn == w.torn + {w.ep.generation + 1} && w'.flights == w.flights && w'.opens == w.opens
  }

  /** What a start does, in full, to an endpoint that is down, and what it leaves alone. */
  lemma StartsBindOrSayWhy(w: World, onlyIfWanted: bool, reportRepeated: bool, bind: Bind)
    requires Sound(w) && bind != Refused("")
    ensures var w' := Apply(w, Start(onlyIfWanted, reportRepeated, bind));
            var out := StartSection(w.ep, onlyIfWanted, reportRepeated, bind);
            if w.ep.running || (onlyIfWanted && !w.ep.wanted) then w' == w && !out.started && out.err == "" &&
                !out.report
            else match bind
                 case Bound =>
                   && w'.ep == w.ep.(running := true, generation := w.ep.generation + 1, bindErr := "", serveErr := "")
                   && out.started && out.err == "" && !out.report
                 case Refused(why) =>
                   && w'.ep == w.ep.(bindErr := why)
                   && !out.started && out.err == why && (out.report <==> reportRepeated || w.ep.bindErr != why)
  {
  }

  /** An address that keeps refusing for the same reason is reported once, however often the loop tries it. */
  lemma RepeatedRefusalsAreReportedOnce<Ch>(s: EndpointState<Ch>, why: string)
    requires why != ""
    ensures var again := StartSection(StartSection(s, true, false, Refused(why)).ep, true, false, Refused(why));
            !again.report
  {
  }

  // ---------------------------------------------------------------------
  // What the rest of the world moves
  // ---------------------------------------------------------------------

  /** The last word an operator had, or `before` if there was none. */
  function LastWord(before: bool, steps: seq<Step>): bool {
    if steps == [] then before
    else if steps[|steps| - 1].SetDesired? then steps[|steps| - 1].wanted
    else LastWord(before, steps[..|steps| - 1])
  }

  /** How long the clock has gone on. */
  function Elapsed(steps: seq<Step>): nat {
    if steps == [] then 0
    else Elapsed(steps[..|steps| - 1]) + if steps[|steps| - 1].Tick? then steps[|steps| - 1].elapsed else 0
  }

  lemma {:induction false} RunSnoc(w: World, steps: seq<Step>, last: Step)
    ensures Run(w, steps + [last]) == Apply(Run(w, steps), last)
    decreases |steps|
  {
    hide Apply;
    if steps == [] {
      assert (steps + [last])[1..] == [];
    } else {
      assert (steps + [last])[1..] == steps[1..] + [last];
      RunSnoc(Apply(w, steps[0]), steps[1..], last);
    }
  }

  lemma IntentAndClock(w: World, step: Step)
    ensures Apply(w, step).ep.wanted == if step.SetDesired? then step.wanted else w.ep.wanted
    ensures Apply(w, step).now == w.now + if step.Tick? then step.elapsed else 0
  {
  }

  /**
   The intent is the operator's: whatever binds, dies, stops or is verified, an endpoint is
   wanted exactly if the last word on it says so, and only then does the loop start it.
   */
  lemma {:induction false} IntentIsTheLastWord(now: int, steps: seq<Step>)
    ensures var w := Run(Initial(now), steps);
            && w.ep.wanted == LastWord(true, steps)
            && w.now == now + Elapsed(steps)
            && (!w.ep.running ==>
                  (Apply(w, Start(true, false, Bound)).ep.running <==> LastWord(true, steps)))
    decreases |steps|
  {
    if steps != [] {
      var init, last := steps[..|steps| - 1], steps[|steps| - 1];
      assert steps == init + [last];
      IntentIsTheLastWord(now, init);
      RunSnoc(Initial(now), init, last);
      IntentAndClock(Run(Initial(now), init), last);
    }
  }

  /** None of the steps lands this flight. */
  ghost predicate StaysUp(steps: seq<Step>, f: FlightId) {
    forall i | 0 <= i < |steps| :: steps[i] != Land(f)
  }

  /** A verification answers once: its verdict carries the moment of the first answer, and no later one replaces it. */
  lemma {:induction false} FirstAnswerCounts(
      w: World, f: FlightId, admitted: bool, stage: string, reason: string, leaf: string, steps: seq<Step>)
    requires f in w.flights && w.flights[f].answer.None? && StaysUp(steps, f)
    ensures var w' := Run(Apply(w, Answer(f, admitted, stage, reason, leaf)), steps);
            f in w'.flights &&
            w'.flights[f] == w.flights[f].(answer := Some(Verdict(w.now, admitted, stage, reason, leaf)))
  {
    AnswersStay(Apply(w, Answer(f, admitted, stage, reason, leaf)), f, steps);
  }

  lemma {:induction false} AnswersStay(w: World, f: FlightId, steps: seq<Step>)
    requires f in w.flights && w.flights[f].answer.Some? && StaysUp(steps, f)
    ensures f in Run(w, steps).flights && Run(w, steps).flights[f] == w.flights[f]
    decreases |steps|
  {
    if steps != [] {
      assert steps[0] != Land(f);
      var w1 := Apply(w, steps[0]);
      assert f in w1.flights && w1.flights[f] == w.flights[f];
      hide Apply;
      AnswersStay(w1, f, steps[1..]);
    }
  }

  /** A connection belongs to the generation it was opened in; only a verdict, a closeAll or a release closes any. */
  lemma OnlyThreeThingsClose(w: World, step: Step)
    ensures Apply(w, OpenConn) == w.(opens := w.opens + {w.ep.generation})
    ensures step.ApplyVerdict? || step.DrainPool? || step.Release? || w.opens <= Apply(w, step).opens
  {
  }

  // ---------------------------------------------------------------------
  // How often a verification may start
  // ---------------------------------------------------------------------

  /**
   Every start of the current generation is either the flight still in the air or
   is answered for by the verdict in force, whose stamp is no earlier.
   */
  ghost predicate StartsAccounted(w: World) {
    && (w.ep.verdict.Some? ==> w.ep.verdict.value.at <= w.now)
    && (forall i | 0 <= i < |w.starts| :: w.starts[i].generation <= w.ep.generation && w.starts[i].time <= w.now)
    && (forall f | f in w.flights ::
          && |w.starts| > 0
          && w.starts[|w.starts| - 1].generation == w.flights[f].generation
          && w.starts[|w.starts| - 1].time == w.flights[f].began
          && (w.flights[f].answer.Some? ==> w.flights[f].began <= w.flights[f].answer.value.at <= w.now))
    && (forall i | 0 <= i < |w.starts| && w.starts[i].generation == w.ep.generation ::
          (w.flights != map[] && i == |w.starts| - 1) || Answered(w, w.starts[i].time))
  }

  ghost predicate Answered(w: World, time: int) {
    w.ep.verdict.Some? && time <= w.ep.verdict.value.at
  }

  ghost predicate Ordered(starts: seq<Started>) {
    forall i, j | 0 <= i < j < |starts| :: starts[i].time <= starts[j].time
  }

  /** An on-demand start follows every earlier start of its generation, forced ones too, by its window. */
  ghost predicate Spaced(starts: seq<Started>) {
    forall i, j | 0 <= i < j < |starts| && starts[i].generation == starts[j].generation && starts[j].window > 0 ::
      starts[j].time - starts[i].time >= starts[j].window
  }

  ghost predicate Paced(w: World) {
    SingleFlight(w) && VerdictIsCurrent(w) && StartsAccounted(w) && Ordered(w.starts) && Spaced(w.starts)
  }

  lemma BeginKeepsPaced(w: World, f: FlightId, reuse: int)
    requires Sound(w) && Paced(w) && f !in w.flights
    ensures Paced(BeginFlight(w, f, reuse))
  {
    var w' := BeginFlight(w, f, reuse);
    BeginKeepsSound(w, f, reuse);
    if w' != w {
      assert w.flights == map[];
      assert w'.starts == w.starts + [Started(w.ep.generation, reuse, w.now)];
      assert forall i | 0 <= i < |w.starts| && w.starts[i].generation == w.ep.generation ::
          Answered(w, w.starts[i].time);
    }
  }

  lemma LandKeepsPaced(w: World, f: FlightId)
    requires Sound(w) && Paced(w) && f in w.flights && w.flights[f].answer.Some?
    ensures Paced(LandFlight(w, f))
  {
    var w' := LandFlight(w, f);
    LandKeepsSound(w, f);
    assert w'.starts == w.starts;
    forall i | 0 <= i < |w.starts| && w.starts[i].generation == w'.ep.generation
      ensures Answered(w', w.starts[i].time)
    {
      assert w.starts[i].time <= w.starts[|w.starts| - 1].time;
    }
  }

  lemma AnswerKeepsPaced(w: World, step: Step)
    requires Sound(w) && Paced(w) && step.Answer?
    ensures Paced(Apply(w, step))
  {
    StepKeepsSound(w, step);
  }

  lemma OtherStepsKeepPaced(w: World, step: Step)
    requires Sound(w) && Paced(w) && !step.BeginAttest? && !step.Answer? && !step.Land?
    ensures Paced(Apply(w, step))
  {
    StepKeepsSound(w, step);
    StepEffects(w, step);
    var w' := Apply(w, step);
    forall i | 0 <= i < |w'.starts| && w'.starts[i].generation == w'.ep.generation
      ensures (w'.flights != map[] && i == |w'.starts| - 1) || Answered(w', w'.starts[i].time)
    {
      assert w.starts[i].generation <= w.ep.generation;
    }
  }

  lemma StepKeepsPaced(w: World, step: Step)
    requires Sound(w) && Paced(w)
    ensures Paced(Apply(w, step))
  {
    StepKeepsSound(w, step);
    match step
    case BeginAttest(f, reuse) => if f !in w.flights { BeginKeepsPaced(w, f, reuse); }
    case Land(f) => if f in w.flights && w.flights[f].answer.Some? { LandKeepsPaced(w, f); }
    case Answer(f, _, _, _, _) => AnswerKeepsPaced(w, step);
    case _ => OtherStepsKeepPaced(w, step);
  }

  /** However many callers arrive and however they interleave with the rest. */
  lemma {:induction false} EveryRunIsPaced(w: World, steps: seq<Step>)
    requires Sound(w) && Paced(w)
    ensures Paced(Run(w, steps))
    decreases |steps|
  {
    if steps != [] {
      StepKeepsSound(w, steps[0]);
      StepKeepsPaced(w, steps[0]);
      EveryRunIsPaced(Apply(w, steps[0]), steps[1..]);
    }
  }

  /** When the on-demand verifications of generation g with a window of at least r began, within [lo, hi]. */
  function OnDemand(starts: seq<Started>, g: nat, r: int, lo: int, hi: int): seq<int> {
    if starts == [] then []
    else
      var last := starts[|starts| - 1];
      var before := OnDemand(starts[..|starts| - 1], g, r, lo, hi);
      if last.generation == g && last.window >= r && lo <= last.time <= hi then before + [last.time] else before
  }

  ghost predicate StartedAt(starts: seq<Started>, g: nat, t: int) {
    exists i :: 0 <= i < |starts| && starts[i].time == t && starts[i].generation == g
  }

  lemma {:induction false} OnDemandTimes(starts: seq<Started>, g: nat, r: int, lo: int, hi: int)
    ensures forall t | t in OnDemand(starts, g, r, lo, hi) :: lo <= t <= hi && StartedAt(starts, g, t)
  {
    if starts != [] {
      var n := |starts| - 1;
      OnDemandTimes(starts[..n], g, r, lo, hi);
      assert starts[n].generation == g ==> StartedAt(starts, g, starts[n].time);
      forall t | StartedAt(starts[..n], g, t) ensures StartedAt(starts, g, t) {
        var i :| 0 <= i < n && starts[..n][i].time == t && starts[..n][i].generation == g;
        assert starts[i].time == t && starts[i].generation == g;
      }
    }
  }

  lemma {:induction false} OnDemandGaps(starts: seq<Started>, g: nat, r: int, lo: int, hi: int)
    requires r > 0 && Spaced(starts)
    ensures var times := OnDemand(starts, g, r, lo, hi);
            times != [] ==> (|times| - 1) * r <= times[|times| - 1] - times[0]
  {
    if starts != [] {
      var n := |starts| - 1;
      OnDemandGaps(starts[..n], g, r, lo, hi);
      OnDemandTimes(starts[..n], g, r, lo, hi);
      var before, times := OnDemand(starts[..n], g, r, lo, hi), OnDemand(starts, g, r, lo, hi);
      if times != before && before != [] {
        assert times == before + [starts[n].time];
        var t := before[|before| - 1];
        assert StartedAt(starts[..n], g, t);
        var i :| 0 <= i < n && starts[..n][i].time == t && starts[..n][i].generation == g;
        assert starts[i] == starts[..n][i];
        OneMoreGap(|before|, r, t - before[0], starts[n].time - before[0]);
      }
    }
  }

  lemma OneMoreGap(n: nat, r: int, span: int, longer: int)
    requires (n - 1) * r <= span && span + r <= longer
    ensures n * r <= longer
  {
    assert n * r == (n - 1) * r + r;
  }

  /** n on-demand verifications of one generation take a span of at least (n - 1) * r, however many requests arrive. */
  lemma OnDemandRate(now: int, steps: seq<Step>, g: nat, r: int, lo: int, hi: int)
    requires r > 0 && lo <= hi
    ensures var n := |OnDemand(Run(Initial(now), steps).starts, g, r, lo, hi)|;
            n > 0 ==> (n - 1) * r <= hi - lo
  {
    EveryRunIsPaced(Initial(now), steps);
    var starts := Run(Initial(now), steps).starts;
    OnDemandGaps(starts, g, r, lo, hi);
    OnDemandTimes(starts, g, r, lo, hi);
    var times := OnDemand(starts, g, r, lo, hi);
    if times != [] {
      assert times[0] in times && times[|times| - 1] in times;
    }
  }

  // ---------------------------------------------------------------------
  // The verdict and the pin
  // ---------------------------------------------------------------------

  /** The pin is that of the verdict applied last, whatever the order. */
  ghost predicate PinFollowsApplied(w: World) {
    w.pin == if w.applied.Some? then PinOf(w.applied.value) else ""
  }

  /**
   Applying a verdict pins the pool to the leaf it admits and to none if it denies,
   closes what was open exactly if that changes the pin, and owes a closeAll exactly if
   it denies under fail-closed; the closeAll closes whatever is open when it comes.
   */
  lemma VerdictsReachThePool(w: World, i: nat, failClosed: bool)
    requires i < |w.pending|
    ensures var v, w' := w.pending[i], Apply(w, ApplyVerdict(i, failClosed));
            && w'.pin == (if v.admitted then v.leaf else "")
            && w'.applied == Some(v) && w'.pending == w.pending[..i] + w.pending[i + 1..]
            && w'.opens == (if w'.pin == w.pin then w.opens else {})
            && w'.drains == w.drains + (if !v.admitted && failClosed then 1 else 0)
            && w'.ep == w.ep
    ensures w.drains > 0 ==>
              Apply(w, DrainPool).opens == {} && Apply(w, DrainPool).drains == w.drains - 1 &&
              Apply(w, DrainPool).pin == w.pin
  {
  }

  /** The verdict in force is the last one installed: still queued, or else the one applied last. */
  ghost predicate AppliedInOrder(w: World) {
    w.ep.verdict.Some? ==>
      if w.pending != [] then w.pending[|w.pending| - 1] == w.ep.verdict.value else w.applied == w.ep.verdict
  }

  /** Installed verdicts reach the pool in the order in which they were installed. */
  ghost predicate Orderly(steps: seq<Step>) {
    forall i | 0 <= i < |steps| && steps[i].ApplyVerdict? :: steps[i].index == 0
  }

  lemma ApplyKeepsPin(w: World, i: nat, failClosed: bool)
    requires PinFollowsApplied(w) && i < |w.pending|
    ensures PinFollowsApplied(ApplyPending(w, i, failClosed))
    ensures AppliedInOrder(w) && i == 0 ==> AppliedInOrder(ApplyPending(w, i, failClosed))
  {
    var w' := ApplyPending(w, i, failClosed);
    if i == 0 && |w.pending| > 1 {
      assert w'.pending[|w'.pending| - 1] == w.pending[|w.pending| - 1];
    }
  }

  lemma LandKeepsPin(w: World, f: FlightId)
    requires PinFollowsApplied(w) && f in w.flights && w.flights[f].answer.Some?
    ensures PinFollowsApplied(LandFlight(w, f))
    ensures AppliedInOrder(w) ==> AppliedInOrder(LandFlight(w, f))
  {
  }

  lemma OtherStepsLeavePin(w: World, step: Step)
    requires !step.Land? && !step.ApplyVerdict?
    ensures var w' := Apply(w, step); w'.pin == w.pin && w'.pending == w.pending && w'.applied == w.applied
  {
  }

  lemma StepKeepsPin(w: World, step: Step)
    requires PinFollowsApplied(w) && AppliedInOrder(w) && (step.ApplyVerdict? ==> step.index == 0)
    ensures PinFollowsApplied(Apply(w, step)) && AppliedInOrder(Apply(w, step))
  {
    if step.Land? {
      if step.flight in w.flights && w.flights[step.flight].answer.Some? { LandKeepsPin(w, step.flight); }
    } else if step.ApplyVerdict? {
      if step.index < |w.pending| { ApplyKeepsPin(w, step.index, step.failClosed); }
    } else {
      hide Apply;
      OtherStepsLeavePin(w, step);
      StepEffects(w, step);
    }
  }

  /** Applied in order, and with none left to apply, the pool is pinned to exactly what the verdict in force attests. */
  lemma {:induction false} OrderlyRunsPinTheVerdict(w: World, steps: seq<Step>)
    requires PinFollowsApplied(w) && AppliedInOrder(w) && Orderly(steps)
    ensures var w' := Run(w, steps);
            && PinFollowsApplied(w') && AppliedInOrder(w')
            && (w'.pending == [] && w'.ep.verdict.Some? ==> w'.pin == PinOf(w'.ep.verdict.value))
    decreases |steps|
  {
    if steps != [] {
      StepKeepsPin(w, steps[0]);
      OrderlyRunsPinTheVerdict(Apply(w, steps[0]), steps[1..]);
    }
  }

  /**
   Nothing in the code makes the order hold: the guard is down before a verdict is
   applied. Two verifications landing one after the other and applied the other way
   round leave the pool pinned to a leaf that the verdict in force does not attest.
   */
  lemma OutOfOrderApplyMisleadsThePin(now: int, older: string, newer: string)
    ensures var w := Run(Initial(now), Misordered(older, newer));
            && w.pending == [] && w.ep.verdict.Some? && w.ep.verdict.value.admitted
            && w.ep.verdict.value.leaf == newer && w.pin == older
  {
    var s := Misordered(older, newer);
    var w3 := VerifyOnce(Initial(now), s, 1, older);
    var w6 := VerifyOnce(w3, s[3..], 2, newer);
    assert w6.pending == [w3.ep.verdict.value, w6.ep.verdict.value];
    ApplySecondThenFirst(w6, s[3..][3..]);
  }

  function Misordered(older: string, newer: string): seq<Step> {
    [BeginAttest(1, 0), Answer(1, true, "", "", older), Land(1),
     BeginAttest(2, 0), Answer(2, true, "", "", newer), Land(2),
     ApplyVerdict(1, true), ApplyVerdict(0, true)]
  }

  // Which orders are right

  function Without(vs: seq<Verdict>, i: nat): (rest: seq<Verdict>)
    requires i < |vs|
    ensures |rest| == |vs| - 1
  {
    vs[..i] + vs[i + 1..]
  }

  /** An order in which n queued verdicts can all be applied, each index counted among those still queued. */
  predicate Drains(n: nat, order: seq<nat>) {
    |order| == n && forall k | 0 <= k < n :: order[k] < n - k
  }

  /** The verdict installed last is applied last. */
  predicate NewestLast(n: nat, order: seq<nat>) {
    forall k | 0 <= k < |order| && k + 1 < n :: order[k] != n - 1 - k
  }

  function LastApplied(vs: seq<Verdict>, order: seq<nat>): Verdict
    requires vs != [] && Drains(|vs|, order)
    decreases |vs|
  {
    if |vs| == 1 then vs[0] else LastApplied(Without(vs, order[0]), order[1..])
  }

  function Applies(order: seq<nat>, failClosed: bool): (steps: seq<Step>)
    ensures |steps| == |order|
  {
    seq(|order|, k requires 0 <= k < |order| => ApplyVerdict(order[k], failClosed))
  }

  lemma {:induction false} RunDrains(w: World, order: seq<nat>, failClosed: bool)
    requires w.pending != [] && Drains(|w.pending|, order)
    ensures var w' := Run(w, Applies(order, failClosed));
            w'.pending == [] && w'.ep == w.ep && w'.pin == PinOf(LastApplied(w.pending, order))
    decreases |order|
  {
    var steps := Applies(order, failClosed);
    assert steps[1..] == Applies(order[1..], failClosed);
    var w1 := Apply(w, steps[0]);
    assert w1.pending == Without(w.pending, order[0]);
    if |order| > 1 {
      RunDrains(w1, order[1..], failClosed);
    } else {
      assert Run(w1, steps[1..]) == w1;
    }
  }

  lemma {:induction false} NewestIsLast(vs: seq<Verdict>, order: seq<nat>)
    requires vs != [] && Drains(|vs|, order) && NewestLast(|vs|, order)
    ensures LastApplied(vs, order) == vs[|vs| - 1]
    decreases |vs|
  {
    if |vs| > 1 {
      var rest := Without(vs, order[0]);
      assert rest[|rest| - 1] == vs[|vs| - 1];
      forall k | 0 <= k < |order[1..]| && k + 1 < |rest| ensures order[1..][k] != |rest| - 1 - k {
        assert order[k + 1] != |vs| - 1 - (k + 1);
      }
      NewestIsLast(rest, order[1..]);
    }
  }

  /** Once the newest is gone from a queue whose others all attest the old leaf, the old leaf is what remains. */
  lemma {:induction false} OldLeafRemains(vs: seq<Verdict>, order: seq<nat>, leaf: string)
    requires vs != [] && Drains(|vs|, order)
    requires forall i | 0 <= i < |vs| - 1 :: PinOf(vs[i]) == leaf
    requires PinOf(vs[|vs| - 1]) == leaf || !NewestLast(|vs|, order)
    ensures PinOf(LastApplied(vs, order)) == leaf
    decreases |vs|
  {
    if |vs| > 1 {
      var rest := Without(vs, order[0]);
      if PinOf(vs[|vs| - 1]) != leaf && order[0] != |vs| - 1 {
        var k :| 0 <= k < |order| && k + 1 < |vs| && order[k] == |vs| - 1 - k;
        assert order[1..][k - 1] == |rest| - 1 - (k - 1);
      }
      OldLeafRemains(rest, order[1..], leaf);
    }
  }

  /** Verifications one after the other, each admitting with its leaf. */
  function Verifications(leaves: seq<string>): seq<Step> {
    if leaves == [] then []
    else [BeginAttest(0, 0), Answer(0, true, "", "", leaves[0]), Land(0)] + Verifications(leaves[1..])
  }

  function AdmittedAt(now: int, leaves: seq<string>): (vs: seq<Verdict>)
    ensures |vs| == |leaves| && forall i | 0 <= i < |vs| :: PinOf(vs[i]) == leaves[i]
  {
    if leaves == [] then [] else [Verdict(now, true, "", "", leaves[0])] + AdmittedAt(now, leaves[1..])
  }

  lemma {:induction false} VerifyAll(w: World, leaves: seq<string>)
    requires w.flights == map[] && !w.ep.attesting
    ensures var w', vs := Run(w, Verifications(leaves)), AdmittedAt(w.now, leaves);
            && w'.pending == w.pending + vs
            && (leaves != [] ==> w'.ep.verdict == Some(vs[|vs| - 1]))
    decreases |leaves|
  {
    hide Apply;
    if leaves == [] {
      assert w.pending + AdmittedAt(w.now, leaves) == w.pending;
    } else {
      hide Run;
      var steps := Verifications(leaves);
      assert steps[..3] == [BeginAttest(0, 0), Answer(0, true, "", "", leaves[0]), Land(0)];
      assert steps[3..] == Verifications(leaves[1..]);
      var w1 := VerifyOnce(w, steps, 0, leaves[0]);
      VerifyAll(w1, leaves[1..]);
      AdmittedOneByOne(w.pending, w.now, leaves);
      if |leaves| == 1 {
        LastIsInForce(w1, leaves[1..]);
      }
    }
  }

  lemma LastIsInForce(w: World, leaves: seq<string>)
    requires leaves == []
    ensures Run(w, Verifications(leaves)) == w
  {
  }

  lemma AdmittedOneByOne(pending: seq<Verdict>, now: int, leaves: seq<string>)
    requires leaves != []
    ensures var vs, rest := AdmittedAt(now, leaves), AdmittedAt(now, leaves[1..]);
            && vs[0] == Verdict(now, true, "", "", leaves[0])
            && pending + vs == (pending + [vs[0]]) + rest
            && (|leaves| > 1 ==> vs[|vs| - 1] == rest[|rest| - 1])
  {
    hide PinOf;
    var first, rest := [AdmittedAt(now, leaves)[0]], AdmittedAt(now, leaves[1..]);
    assert pending + (first + rest) == (pending + first) + rest;
  }

  /** A run has installed n verdicts that are still to be applied, the one in force last. */
  ghost predicate Queued(w: World, n: nat) {
    n > 0 && |w.pending| == n && w.ep.verdict == Some(w.pending[n - 1])
  }

  /** Applied in this order after that run, the verdicts leave the pin of the one in force. */
  ghost predicate PinsRight(w: World, n: nat, order: seq<nat>, failClosed: bool) {
    Queued(w, n) ==> Run(w, Applies(order, failClosed)).pin == PinOf(w.ep.verdict.value)
  }

  /**
   An order of applying n installed verdicts pins the pool to the verdict in force,
   after every run that leads up to it, exactly when it applies the one installed last
   at the end.
   */
  lemma OrderPinsTheVerdictIff(now: int, n: nat, order: seq<nat>, failClosed: bool)
    requires n > 0 && Drains(n, order)
    ensures NewestLast(n, order) <==> forall steps :: PinsRight(Run(Initial(now), steps), n, order, failClosed)
  {
    hide Apply, Run;
    if NewestLast(n, order) {
      forall steps ensures PinsRight(Run(Initial(now), steps), n, order, failClosed) {
        var w := Run(Initial(now), steps);
        if Queued(w, n) {
          RunDrains(w, order, failClosed);
          NewestIsLast(w.pending, order);
        }
      }
    } else {
      RotationMisleads(now, n, order, failClosed);
    }
  }

  /** The leaf rotates at the last of n verifications. */
  ghost predicate Rotated(w: World, n: nat) {
    && Queued(w, n) && PinOf(w.pending[n - 1]) == "new"
    && forall i | 0 <= i < n - 1 :: PinOf(w.pending[i]) == "old"
  }

  function RotatingLeaves(n: nat): (leaves: seq<string>)
    ensures |leaves| == n && forall i | 0 <= i < n :: leaves[i] == if i == n - 1 then "new" else "old"
  {
    seq(n, i => if i == n - 1 then "new" else "old")
  }

  lemma AdmittedRotation(w: World, now: int, n: nat)
    requires n > 0 && w.pending == AdmittedAt(now, RotatingLeaves(n)) && w.ep.verdict == Some(w.pending[n - 1])
    ensures Rotated(w, n)
  {
    hide PinOf, RotatingLeaves, AdmittedAt;
  }

  /** The run behind the other half. */
  lemma Rotation(now: int, n: nat)
    requires n > 0
    ensures exists steps :: Rotated(Run(Initial(now), steps), n)
  {
    hide Run, Verifications, RotatingLeaves, AdmittedAt, Rotated, PinOf;
    var leaves := RotatingLeaves(n);
    VerifyAll(Initial(now), leaves);
    var w := Run(Initial(now), Verifications(leaves));
    assert [] + AdmittedAt(now, leaves) == AdmittedAt(now, leaves);
    AdmittedRotation(w, now, n);
  }

  lemma RotationMisleads(now: int, n: nat, order: seq<nat>, failClosed: bool)
    requires n > 0 && Drains(n, order) && !NewestLast(n, order)
    ensures exists steps :: !PinsRight(Run(Initial(now), steps), n, order, failClosed)
  {
    hide Run, NewestLast, Drains, PinOf, Applies, LastApplied, Initial;
    Rotation(now, n);
    var steps :| Rotated(Run(Initial(now), steps), n);
    var w := Run(Initial(now), steps);
    RunDrains(w, order, failClosed);
    OldLeafRemains(w.pending, order, "old");
    assert !PinsRight(w, n, order, failClosed);
  }

  lemma ApplySecondThenFirst(w: World, steps: seq<Step>)
    requires |w.pending| == 2 && steps == [ApplyVerdict(1, true), ApplyVerdict(0, true)]
    ensures var w' := Run(w, steps);
            w'.pending == [] && w'.ep == w.ep && w'.pin == PinOf(w.pending[0])
  {
    assert steps[1..] == [ApplyVerdict(0, true)] && steps[1..][1..] == [];
    var w1 := Apply(w, steps[0]);
    assert w1.pending == [w.pending[0]];
    assert Run(w1, steps[1..]) == Apply(w1, steps[1]);
  }

  lemma VerifyOnce(w: World, steps: seq<Step>, f: FlightId, leaf: string) returns (w': World)
    requires w.flights == map[] && !w.ep.attesting
    requires |steps| >= 3 && steps[..3] == [BeginAttest(f, 0), Answer(f, true, "", "", leaf), Land(f)]
    ensures Run(w, steps) == Run(w', steps[3..])
    ensures w'.flights == map[] && !w'.ep.attesting
    ensures w'.ep.verdict == Some(Verdict(w.now, true, "", "", leaf)) && w'.pending == w.pending + [w'.ep.verdict.value]
    ensures w'.now == w.now
  {
    RunThree(w, steps);
    assert steps[0] == steps[..3][0] && steps[1] == steps[..3][1] && steps[2] == steps[..3][2];
    var w1 := Apply(w, steps[0]);
    assert w1.flights == map[f := Flight(w.ep.generation, w.chans, w.teardowns, w.now, None)];
    var w2 := Apply(w1, steps[1]);
    w' := Apply(w2, steps[2]);
    assert w'.flights == map[];
  }

  lemma RunThree(w: World, steps: seq<Step>)
    requires |steps| >= 3
    ensures Run(w, steps) == Run(Apply(Apply(Apply(w, steps[0]), steps[1]), steps[2]), steps[3..])
  {
    assert steps[1..][1..] == steps[2..] && steps[2..][1..] == steps[3..];
    assert Run(Apply(w, steps[0]), steps[1..]) == Run(Apply(Apply(w, steps[0]), steps[1]), steps[2..]);
  }

  // ---------------------------------------------------------------------
  // The objects
  // ---------------------------------------------------------------------

  /** A channel used only to be closed; closing it twice is a crash. */
  class Signal {
    var closed: bool

    constructor ()
      ensures !closed
    {
      closed := false;
    }

    method Close()
      requires !closed
      modifies this
      ensures closed
    {
      closed := true;
    }
  }

  /** What a configuration says about an endpoint, beside its name. */
  datatype Settings = Settings(listen: string, upstream: string, tuning: int)

  class Endpoint {
    const name: string
    const settings: Settings
    var running: bool
    var wanted: bool
    var generation: nat
    var bindErr: string
    var serveErr: string
    var verdict: Option<Verdict>
    var firstVerdict: Signal
    var lastAttestAt: Option<int>
    var nextAttestAt: Option<int>
    var attesting: bool
    var attestDone: Signal?

    ghost function State(): EndpointState<Signal>
      reads this
    {
      EndpointState(running, wanted, generation, bindErr, serveErr, verdict, firstVerdict, lastAttestAt, nextAttestAt,
                    attesting, Waiting(attestDone))
    }

    static ghost function Waiting(done: Signal?): Option<Signal> {
      if done == null then None else var d: Signal := done; Some(d)
    }

    /** The part of the run invariant that one object can speak for. */
    ghost predicate Valid()
      reads this, firstVerdict, attestDone
    {
      && (running <==> generation % 2 == 1)
      && (running ==> bindErr == "" && serveErr == "")
      && (verdict.Some? <==> firstVerdict.closed)
      && (attesting ==> attestDone != null && attestDone != firstVerdict && !attestDone.closed)
    }

    constructor (name: string, settings: Settings)
      ensures this.name == name && this.settings == settings && Valid() && fresh(firstVerdict)
      ensures State() == EndpointState(false, true, 0, "", "", None, firstVerdict, None, None, false, None)
    {
      this.name, this.settings := name, settings;
      running, wanted, generation, bindErr, serveErr := false, true, 0, "", "";
      verdict, lastAttestAt, nextAttestAt, attesting, attestDone := None, None, None, false, null;
      firstVerdict := new Signal();
    }

    method SetDesired(desired: bool)
      modifies this`wanted
      ensures State() == old(State()).(wanted := desired)
      ensures wanted == desired
    {
      wanted := desired;
    }

    method StartListener(
        onlyIfWanted: bool, reportRepeated: bool, bind: Bind) returns (started: bool, err: string, report: bool)
      modifies this`running, this`bindErr, this`serveErr, this`generation
      ensures StartOutcome(State(), started, err, report) ==
                StartSection(old(State()), onlyIfWanted, reportRepeated, bind)
      ensures old(Valid()) ==> Valid()
      ensures started <==> running && !old(running)
      ensures old(running) || (onlyIfWanted && !old(wanted)) ==> unchanged(this) && err == "" && !report
      ensures !old(running) && (!onlyIfWanted || old(wanted)) ==>
                match bind
                case Bound => running && bindErr == serveErr == err == "" && generation == old(generation) + 1 &&
                    !report
                case Refused(why) =>
                  && !running && bindErr == err == why && serveErr == old(serveErr) && generation == old(generation)
                  && (report <==> reportRepeated || old(bindErr) != why)
    {
      started, err, report := false, "", false;
      if running {
        return;
      }
      if onlyIfWanted && !wanted {
        return;
      }
      match bind {
        case Refused(why) =>
          report := reportRepeated || bindErr != why;
          bindErr := why;
          err := why;
        case Bound =>
          running := true;
          bindErr, serveErr := "", "";
          generation := generation + 1;
          started := true;
      }
    }

    method TearDown()
      modifies this
      ensures fresh(firstVerdict) && !firstVerdict.closed
      ensures State() == Torn(old(State()), firstVerdict)
      ensures !running && verdict.None? && lastAttestAt.None? && nextAttestAt.None?
      ensures generation == old(generation) + 1 && wanted == old(wanted)
      ensures bindErr == old(bindErr) && serveErr == old(serveErr)
      ensures attesting == old(attesting) && attestDone == old(attestDone)
    {
      running := false;
      generation := generation + 1;
      verdict, lastAttestAt, nextAttestAt := None, None, None;
      firstVerdict := new Signal();
    }

    method Stop() returns (torn: Option<nat>)
      modifies this
      ensures (State(), torn) == StopSection(old(State()), firstVerdict)
      ensures !running && (old(running) ==>
                torn == Some(generation) && generation == old(generation) + 1 && verdict.None?)
      ensures !old(running) ==> unchanged(this) && torn.None?
      ensures wanted == old(wanted) && serveErr == old(serveErr)
      ensures old(Valid()) ==> Valid()
    {
      if !running {
        return None;
      }
      TearDown();
      torn := Some(generation);
    }

    method ServeFailed(failed: nat, err: string) returns (torn: Option<nat>)
      modifies this
      ensures (State(), torn) == ServeFailedSection(old(State()), failed, err, firstVerdict)
      ensures !old(running) || old(generation) != failed ==> unchanged(this) && torn.None?
      ensures old(running) && old(generation) == failed ==>
                && !running && serveErr == err && verdict.None? && generation == failed + 1 && torn == Some(failed + 1)
                && wanted == old(wanted)
      ensures old(Valid()) ==> Valid()
    {
      if !running || generation != failed {
        return None;
      }
      TearDown();
      serveErr := err;
      torn := Some(generation);
    }

    /** The first lock hold of a verification. */
    method BeginAttest(now: int, reuse: int) returns (outcome: BeginOutcome<Signal>)
      requires Valid()
      modifies this`attesting, this`attestDone
      ensures Valid()
      ensures outcome.Fly? ==> fresh(outcome.done) && attestDone == outcome.done
      ensures attestDone != null ==> (State(), outcome) == BeginSection(old(State()), now, reuse, attestDone)
      ensures attestDone == null ==> outcome.Reuse? && State() == old(State())
      ensures outcome.Reuse? <==> Younger(old(verdict), now, reuse)
      ensures outcome.Reuse? ==>
                reuse > 0 && old(verdict) == Some(outcome.verdict) && now - outcome.verdict.at < reuse
      ensures reuse <= 0 || old(verdict).None? || now - old(verdict).value.at >= reuse ==>
                if old(attesting) then outcome.Join? else outcome.Fly?
      ensures outcome.Join? <==> !Younger(old(verdict), now, reuse) && old(attesting)
      ensures outcome.Join? ==> outcome.waiting == Waiting(old(attestDone))
      ensures outcome.Fly? ==> attesting && outcome.generation == generation
      ensures !outcome.Fly? ==> unchanged(this)
    {
      if reuse > 0 && verdict.Some? && now - verdict.value.at < reuse {
        return Reuse(verdict.value);
      }
      if attesting {
        return Join(Some(attestDone));
      }
      attesting := true;
      var done := new Signal();
      attestDone := done;
      outcome := Fly(done, generation);
    }

    /** The landing of the flight that holds `done`, with the answer it brings. */
    method FinishAttest(began: nat, done: Signal, result: Verdict) returns (outcome: FinishOutcome)
      requires Valid() && attesting && attestDone == done
      modifies this, firstVerdict, done
      ensures Valid() && done.closed && firstVerdict == old(firstVerdict)
      ensures (State(), outcome) == FinishSection(old(State()), began, result, old(firstVerdict.closed))
      ensures !attesting && generation == old(generation)
      ensures outcome.Discarded? <==> began != generation
      ensures outcome.Discarded? ==> verdict == old(verdict) && lastAttestAt == old(lastAttestAt)
      ensures outcome.Installed? ==>
                && verdict == Some(result) && lastAttestAt == Some(result.at) && firstVerdict.closed
                && outcome.previous == old(verdict) && outcome.closesFirst == !old(firstVerdict.closed)
    {
      if generation != began {
        attesting := false;
        done.Close();
        return Discarded;
      }
      outcome := Installed(verdict, !firstVerdict.closed);
      verdict := Some(result);
      lastAttestAt := Some(result.at);
      attesting := false;
      if !firstVerdict.closed {
        firstVerdict.Close();
      }
      done.Close();
    }

    method ArmNext(now: int, delay: int)
      modifies this`nextAttestAt
      ensures State() == ArmSection(old(State()), now, delay)
      ensures nextAttestAt == if running then Some(now + delay) else old(nextAttestAt)
    {
      if running {
        nextAttestAt := Some(now + delay);
      }
    }
  }

  /** applyVerdict on the pool that carries attested traffic. */
  method ApplyToPool(pool: UpstreamPool.Pool, current: Verdict, failClosed: bool)
    requires pool.Valid()
    modifies pool, pool.conns
    ensures pool.Valid() && pool.pin == PinOf(current)
    ensures pool.pin == if current.admitted then current.leaf else ""
    ensures pool.pin == old(pool.pin) && (current.admitted || !failClosed) ==>
              pool.conns == old(pool.conns) && forall c | c in old(pool.conns) :: unchanged(c)
    ensures pool.pin != old(pool.pin) ==> pool.conns == {}
    ensures pool.conns <= old(pool.conns)
    ensures PinOf(current) != "" ==> forall c | c in pool.conns :: c.leaf == current.leaf
    ensures !current.admitted && failClosed ==> pool.conns == {} && forall c | c in old(pool.conns) :: !c.open
    ensures forall c | c in old(pool.conns) - pool.conns :: !c.open
  {
    if current.admitted {
      pool.SetPin(current.leaf);
    } else {
      pool.SetPin("");
      if failClosed {
        pool.CloseAll();
      }
    }
  }
}
