/**
 One endpoint and the pool that carries its attested traffic, together: verdicts are
 applied to the pool while dials of two lock holds each, sweeps and closes go on.
 */
module AttestedTraffic {
  import opened Wrappers
  import E = EndpointLifecycle
  import P = UpstreamPool

  datatype World = World(ep: E.World, pool: P.World)

  /**
   The endpoint's steps reach the pool through the pin and through closeAll; the rest of the
   pool's steps are its own.
   */
  datatype Step = OfEndpoint(step: E.Step) | OfPool(own: P.Step)

  function Initial(now: int): World {
    World(E.Initial(now), P.Initial())
  }

  /** What a step of the endpoint does to the pool. */
  function PoolSide(w: World, step: E.Step): P.World {
    match step
    case ApplyVerdict(i, _) =>
      if i < |w.ep.pending| then P.Apply(w.pool, P.SetPin(E.PinOf(w.ep.pending[i]))) else w.pool
    case DrainPool => if w.ep.drains > 0 then P.Apply(w.pool, P.CloseAll) else w.pool
    case Release(g) => if g in w.ep.torn && E.ReleaseActs(w.ep.ep, g) then P.Apply(w.pool, P.CloseAll) else w.pool
    case _ => w.pool
  }

  function Apply(w: World, step: Step): World {
    match step
    case OfEndpoint(s) => World(E.Apply(w.ep, s), PoolSide(w, s))
    case OfPool(s) => if s.SetPin? || s.CloseAll? then w else w.(pool := P.Apply(w.pool, s))
  }

  function Run(w: World, steps: seq<Step>): World
    decreases |steps|
  {
    if steps == [] then w else Run(Apply(w, steps[0]), steps[1..])
  }

  /** The pool is under the pin of the verdict applied last, and holds what its own invariant says. */
  ghost predicate Coupled(w: World) {
    && P.Safe(w.pool) && E.Sound(w.ep)
    && E.PinFollowsApplied(w.ep) && w.pool.pool.pin == w.ep.pin
  }

  lemma PinMovesOnlyWithSetPin(w: P.World, step: P.Step)
    ensures P.Apply(w, step).pool.pin == if step.SetPin? then step.pin else w.pool.pin
  {
  }

  lemma OthersKeepThePin(w: E.World, step: E.Step)
    requires !step.ApplyVerdict?
    ensures E.Apply(w, step).pin == w.pin
    ensures E.PinFollowsApplied(w) ==> E.PinFollowsApplied(E.Apply(w, step))
  {
    if step.Land? {
      if step.flight in w.flights && w.flights[step.flight].answer.Some? && E.PinFollowsApplied(w) {
        E.LandKeepsPin(w, step.flight);
      }
    } else {
      E.OtherStepsLeavePin(w, step);
    }
  }

  lemma EndpointKeepsCoupled(w: World, step: E.Step)
    requires Coupled(w)
    ensures Coupled(Apply(w, OfEndpoint(step)))
  {
    hide E.Apply, E.Sound, E.PinFollowsApplied, P.Safe, P.Apply;
    E.StepKeepsSound(w.ep, step);
    if step.ApplyVerdict? {
      ApplyVerdictKeepsPins(w, step.index, step.failClosed);
    } else {
      OthersKeepThePin(w.ep, step);
      P.StepKeepsSafe(w.pool, P.CloseAll);
      PinMovesOnlyWithSetPin(w.pool, P.CloseAll);
    }
  }

  lemma ApplyVerdictKeepsPins(w: World, i: nat, failClosed: bool)
    requires P.Safe(w.pool) && E.PinFollowsApplied(w.ep) && w.pool.pool.pin == w.ep.pin
    ensures var w' := Apply(w, OfEndpoint(E.ApplyVerdict(i, failClosed)));
            P.Safe(w'.pool) && E.PinFollowsApplied(w'.ep) && w'.pool.pool.pin == w'.ep.pin
  {
    hide P.Safe, P.Apply;
    if i < |w.ep.pending| {
      var pin := E.PinOf(w.ep.pending[i]);
      E.ApplyKeepsPin(w.ep, i, failClosed);
      P.StepKeepsSafe(w.pool, P.SetPin(pin));
      PinMovesOnlyWithSetPin(w.pool, P.SetPin(pin));
    }
  }

  lemma StepKeepsCoupled(w: World, step: Step)
    requires Coupled(w)
    ensures Coupled(Apply(w, step))
  {
    hide E.Apply, E.Sound, E.PinFollowsApplied, P.Safe, P.Apply;
    match step
    case OfEndpoint(s) => EndpointKeepsCoupled(w, s);
    case OfPool(s) =>
      P.StepKeepsSafe(w.pool, s);
      PinMovesOnlyWithSetPin(w.pool, s);
  }

  /** In every interleaving of the two. */
  lemma {:induction false} EveryRunIsCoupled(w: World, steps: seq<Step>)
    requires Coupled(w)
    ensures Coupled(Run(w, steps))
    decreases |steps|
  {
    if steps != [] {
      StepKeepsCoupled(w, steps[0]);
      hide Apply, Coupled;
      EveryRunIsCoupled(Apply(w, steps[0]), steps[1..]);
    }
  }

  /** Installed verdicts reach the pool in the order in which they were installed. */
  ghost predicate Orderly(steps: seq<Step>) {
    forall i | 0 <= i < |steps| && steps[i].OfEndpoint? && steps[i].step.ApplyVerdict? :: steps[i].step.index == 0
  }

  lemma {:induction false} OrderlyRunsApplyInOrder(w: World, steps: seq<Step>)
    requires E.PinFollowsApplied(w.ep) && E.AppliedInOrder(w.ep) && Orderly(steps)
    ensures E.PinFollowsApplied(Run(w, steps).ep) && E.AppliedInOrder(Run(w, steps).ep)
    decreases |steps|
  {
    if steps != [] {
      hide E.PinFollowsApplied, E.AppliedInOrder, E.Apply, P.Apply;
      if steps[0].OfEndpoint? {
        E.StepKeepsPin(w.ep, steps[0].step);
      }
      OrderlyRunsApplyInOrder(Apply(w, steps[0]), steps[1..]);
    }
  }

  /**
   Whatever order verdicts are applied in: every registered connection presented the
   leaf of the verdict applied last, if that one admits a leaf.
   */
  lemma TrafficFollowsTheVerdictApplied(now: int, steps: seq<Step>, c: P.Conn)
    ensures var w := Run(Initial(now), steps);
            c in w.pool.pool.conns && w.ep.applied.Some? && E.PinOf(w.ep.applied.value) != "" ==>
              c in w.pool.leaf && w.pool.leaf[c] == w.ep.applied.value.leaf
  {
    hide E.Apply, P.Apply, Run, Coupled, Initial;
    InitialIsCoupled(now);
    EveryRunIsCoupled(Initial(now), steps);
    LeafOfTheVerdictApplied(Run(Initial(now), steps), c);
  }

  lemma InitialIsCoupled(now: int)
    ensures Coupled(Initial(now))
  {
  }

  lemma LeafOfTheVerdictApplied(w: World, c: P.Conn)
    requires Coupled(w)
    ensures c in w.pool.pool.conns && w.ep.applied.Some? && E.PinOf(w.ep.applied.value) != "" ==>
              c in w.pool.leaf && w.pool.leaf[c] == w.ep.applied.value.leaf
  {
    hide E.Sound, P.Accounted, P.SweepsLookBack, P.NeverCrossesPins;
  }

  lemma VerdictIsCurrent(w: World)
    requires Coupled(w) && w.ep.ep.verdict.Some?
    ensures w.ep.epoch == w.ep.teardowns
  {
    hide P.Safe, E.Lifecycle, E.SingleFlight, E.ChannelsSound, E.PinFollowsApplied;
  }

  /**
   Applied in order and with none left to apply: while a verdict that admits a leaf is
   in force, every registered connection presented exactly that leaf, whatever dials
   were under way, and the verdict was begun since the last teardown.
   */
  lemma TrafficIsAttested(now: int, steps: seq<Step>, c: P.Conn)
    requires Orderly(steps)
    ensures var w := Run(Initial(now), steps);
            w.ep.pending == [] && w.ep.ep.verdict.Some? && E.PinOf(w.ep.ep.verdict.value) != "" ==>
              && w.ep.epoch == w.ep.teardowns
              && (c in w.pool.pool.conns ==> c in w.pool.leaf && w.pool.leaf[c] == w.ep.ep.verdict.value.leaf)
  {
    hide E.Apply, P.Apply, Run, Coupled, Orderly;
    InitialIsCoupled(now);
    EveryRunIsCoupled(Initial(now), steps);
    OrderlyRunsApplyInOrder(Initial(now), steps);
    TrafficFollowsTheVerdictApplied(now, steps, c);
    hide Initial;
    var w := Run(Initial(now), steps);
    if w.ep.ep.verdict.Some? {
      VerdictIsCurrent(w);
    }
  }

  // What applying a verdict and taking an endpoint down do to the traffic

  /** A verdict that admits the leaf already pinned touches no connection, in any run. */
  lemma SameLeafKeepsTraffic(now: int, steps: seq<Step>, i: nat, failClosed: bool)
    ensures var w := Run(Initial(now), steps);
            i < |w.ep.pending| && w.ep.pending[i].admitted && w.ep.pending[i].leaf == w.pool.pool.pin ==>
              Apply(w, OfEndpoint(E.ApplyVerdict(i, failClosed))).pool == w.pool
  {
    hide Run;
    var w := Run(Initial(now), steps);
    if i < |w.ep.pending| {
      P.SetPinSweepsIffItChanges(w.pool, E.PinOf(w.ep.pending[i]));
    }
  }

  /** A verdict that pins another leaf, or denies, leaves no connection of the pin before registered. */
  lemma OtherLeafCutsTraffic(w: World, i: nat, failClosed: bool)
    requires i < |w.ep.pending|
    ensures var v := w.ep.pending[i];
            var pin := if v.admitted then v.leaf else "";
            var w' := Apply(w, OfEndpoint(E.ApplyVerdict(i, failClosed)));
            && w'.pool.pool.pin == pin
            && (pin != w.pool.pool.pin ==>
                  w'.pool.pool.conns == {} && w'.pool.closing == w.pool.closing + w.pool.pool.conns)
  {
    P.SetPinSweepsIffItChanges(w.pool, E.PinOf(w.ep.pending[i]));
  }

  /** The closeAll that a denial under fail-closed owes takes every connection registered by then. */
  lemma DrainCutsTraffic(w: World)
    requires w.ep.drains > 0
    ensures var w' := Apply(w, OfEndpoint(E.DrainPool));
            w'.pool.pool.conns == {} && w'.pool.closing == w.pool.closing + w.pool.pool.conns
  {
    P.ClosesTakeWhatTheyClose(w.pool, 0);
  }

  /** The endpoint's part of a run. */
  function EndpointSteps(steps: seq<Step>): seq<E.Step> {
    if steps == [] then []
    else (if steps[0].OfEndpoint? then [steps[0].step] else []) + EndpointSteps(steps[1..])
  }

  lemma {:induction false} EndpointRunsOnItsOwn(w: World, steps: seq<Step>)
    ensures Run(w, steps).ep == E.Run(w.ep, EndpointSteps(steps))
    decreases |steps|
  {
    if steps != [] {
      hide E.Apply, P.Apply;
      EndpointRunsOnItsOwn(Apply(w, steps[0]), steps[1..]);
      var rest := EndpointSteps(steps[1..]);
      if steps[0].OfEndpoint? {
        assert ([steps[0].step] + rest)[1..] == rest;
      } else {
        assert [] + rest == rest;
      }
    }
  }

  /** What the pool sees of one step. */
  function SeenByPool(w: World, step: Step): seq<P.Step> {
    match step
    case OfPool(s) => if s.SetPin? || s.CloseAll? then [] else [s]
    case OfEndpoint(ApplyVerdict(i, _)) =>
      if i < |w.ep.pending| then [P.SetPin(E.PinOf(w.ep.pending[i]))] else []
    case OfEndpoint(DrainPool) => if w.ep.drains > 0 then [P.CloseAll] else []
    case OfEndpoint(Release(g)) => if g in w.ep.torn && E.ReleaseActs(w.ep.ep, g) then [P.CloseAll] else []
    case _ => []
  }

  function PoolSteps(w: World, steps: seq<Step>): seq<P.Step>
    decreases |steps|
  {
    if steps == [] then [] else SeenByPool(w, steps[0]) + PoolSteps(Apply(w, steps[0]), steps[1..])
  }

  lemma OneStepOfThePool(w: World, step: Step, rest: seq<P.Step>)
    ensures P.Run(w.pool, SeenByPool(w, step) + rest) == P.Run(Apply(w, step).pool, rest)
  {
    hide P.Apply, E.Apply;
    var seen := SeenByPool(w, step);
    if seen == [] {
      assert seen + rest == rest;
    } else {
      assert (seen + rest)[1..] == rest;
    }
  }

  /** Every run of the two together is, for the pool alone, a run of its own: dials and closes as they are. */
  lemma {:induction false} PoolRunsOnItsOwn(w: World, steps: seq<Step>)
    ensures Run(w, steps).pool == P.Run(w.pool, PoolSteps(w, steps))
    decreases |steps|
  {
    hide P.Apply, E.Apply, SeenByPool;
    if steps != [] {
      PoolRunsOnItsOwn(Apply(w, steps[0]), steps[1..]);
      OneStepOfThePool(w, steps[0], PoolSteps(Apply(w, steps[0]), steps[1..]));
    }
  }

  /** None of the steps finishes or aborts this dial. */
  ghost predicate LeavesDial(steps: seq<Step>, d: P.Dial) {
    forall i | 0 <= i < |steps| :: !steps[i].OfPool? || P.LeavesDial([steps[i].own], d)
  }

  lemma {:induction false} DialIsLeft(w: World, steps: seq<Step>, d: P.Dial)
    requires LeavesDial(steps, d)
    ensures P.LeavesDial(PoolSteps(w, steps), d)
    decreases |steps|
  {
    hide P.Apply, E.Apply;
    if steps != [] {
      DialIsLeft(Apply(w, steps[0]), steps[1..], d);
      if steps[0].OfPool? {
        assert P.LeavesDial([steps[0].own], d);
        assert [steps[0].own][0] == steps[0].own;
      }
    }
  }

  /**
   A whole dial while verdicts come and go: its connection carries traffic exactly if it
   presented the leaf of the verdict applied last when it ends, or none admits a leaf then
   nor did when it began, and no other leaf was admitted when it began.
   */
  lemma DialSpansTheVerdicts(w: World, steps: seq<Step>, d: P.Dial, c: P.Conn, observed: string)
    requires Coupled(w) && d !in w.pool.dials && LeavesDial(steps, d) && observed != ""
    requires c !in Run(Apply(w, OfPool(P.BeginDial(d))), steps).pool.leaf
    ensures var w1 := Run(Apply(w, OfPool(P.BeginDial(d))), steps);
            var w' := Apply(w1, OfPool(P.EndDial(d, c, observed)));
            c in w'.pool.pool.conns <==>
            (w.ep.pin == "" || w.ep.pin == observed) &&
                (w1.ep.pin == observed || (w1.ep.pin == "" && w.ep.pin == ""))
  {
    var w0 := Apply(w, OfPool(P.BeginDial(d)));
    hide P.Apply, E.Apply, Coupled, LeavesDial, P.LeavesDial, Run, P.Run;
    PoolRunsOnItsOwn(w0, steps);
    DialIsLeft(w0, steps, d);
    StepKeepsCoupled(w, OfPool(P.BeginDial(d)));
    EveryRunIsCoupled(w0, steps);
    PinsAgree(w);
    PinsAgree(Run(w0, steps));
    P.DialSpansItsPins(w.pool, PoolSteps(w0, steps), d, c, observed);
  }

  lemma PinsAgree(w: World)
    requires Coupled(w)
    ensures w.pool.pool.pin == w.ep.pin && P.Safe(w.pool)
  {
  }

  /**
   The release that a teardown owes takes every registered connection, exactly if no
   start has bound since; if one has, the new listener's connections stay.
   */
  lemma ReleaseCutsTrafficUnlessRestarted(w: World, steps: seq<Step>)
    requires Coupled(w) && !w.ep.ep.running && w.ep.ep.generation in w.ep.torn
    ensures var g, w1 := w.ep.ep.generation, Run(w, steps);
            g in w1.ep.torn ==>
              var w' := Apply(w1, OfEndpoint(E.Release(g)));
              if E.BoundSince(w.ep, EndpointSteps(steps)) then w'.pool == w1.pool
              else w'.pool.pool.conns == {} && forall c | c in w1.pool.pool.conns ::
                  c in w'.pool.closing + w'.pool.closed
  {
    EndpointRunsOnItsOwn(w, steps);
    E.GenerationTellsStarts(w.ep, EndpointSteps(steps));
    var w1 := Run(w, steps);
    P.ClosesTakeWhatTheyClose(w1.pool, 0);
    hide Run, E.Run, E.BoundSince, Coupled, EndpointSteps;
  }
}
