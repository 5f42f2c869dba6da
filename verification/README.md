# A verified model of the gatekeeper's data plane

The gatekeeper sits in front of confidential upstreams. For each configured endpoint it
binds a listener, verifies the upstream's attestation, pins its connections to the leaf
that was attested, and admits traffic only under a verdict that says so. This project
models the parts of it that are protocols or algorithms, and proves what they promise.

How the concurrent parts are modelled. Every lock hold in the source is a function on the
state the lock protects (`FlipAndSweep`, `FinishSection`, `ReadSection`, ...). The classes of
the pool, the endpoint, the schedule, the replayer and the watcher have the source's fields,
and each of their methods is proved to change the state exactly as the function says. A step
system then interleaves the same functions without any restriction, one lock hold a step, and
the main theorems hold after every list of steps. The supervisor's loops call the endpoint's
methods; `ReloadPlans` proves that what a reload's loops decide is the swap step that
`ReloadRuns` interleaves. Counters and sets that exist only to state a theorem are marked as
history.

| module | component |
|---|---|
| `UpstreamPool` | the pinned connection pool and its tracked connections |
| `EndpointLifecycle` | one endpoint: listener, intent, generation, verdict, single flight |
| `AttestedTraffic` | the two together: verdicts applied to the pool while dials, sweeps and closes go on |
| `AttestSchedule` | the background re-attestation schedule |
| `Supervisor` | reload, reconcile, start and stop as loops over endpoint objects and host addresses |
| `ReloadRuns`, `ReloadPlans` | the same under interleaving: reload, passes with lists of any age, operators, dying listeners; and the link between the two |
| `Replay`, `RoundTrip` | the recorded request body, and the decision to send a request again |
| `Base64`, `EvidenceDigest` | the digest codec in Go and in TypeScript (RFC 4648, sections 3.5 and 5) |
| `ProtoWalker`, `LittleEndian`, `TeeEvidence` | the protobuf walker, field reads and evidence decoding |
| `EvidenceLaws` | what decoded evidence says, by field number and byte offset |
| `ConfigWatcher` | the sidecar's watcher racing a writer |
| `TreeMatch` | the subtree order behind `custom.tree_match` |

Some promises one might read into the code do not hold without a condition. Each is stated
with the run that breaks it and with the condition under which it holds:

- A verdict in force need not be the one the pool is pinned to: the single-flight guard is
  down before a verdict is applied (`OutOfOrderApplyMisleadsThePin`); an order of applying is
  right after every run exactly when the verdict installed last is applied last
  (`OrderPinsTheVerdictIff`).
- An endpoint restarted while a verification is in the air is left running with no verdict and
  nobody verifying it, for a whole re-attest interval (`RestartMidFlightStaysUnverified`); a
  caller that joined a flight finds its answer exactly when the generation has not moved since
  it took off (`JoinersFind`).
- `rewindable()` does not promise that the second view begins at byte 0, because the old view
  may still be draining the body (`RewindableIsNotEnough`); a view delivers the start of the
  body, whatever it holds, exactly when the body had not overflowed when the view was opened or
  nothing was delivered (`DeliversAPrefixIff`).
- A retired endpoint can come back: an operator's Start that looked it up before the reload
  (`LateStartRevives`); it stays down in every continuation exactly when no such Start is in
  flight at that moment (`RetiredForGoodIff`).
- A list with two endpoints of one name leaks one of them at some reload, and only such a list
  does (`AccountedIffDistinctNames`); configuration validation excludes it.
- A transport that moves a request to another connection after it has written can make both
  attempts write (`InternalRetryDefeatsTheGuard`); the guard is safe for what a transport does
  exactly when it refuses the attempt anyway or nothing moved before the last hand-over
  (`GuardIsSafeIff`).
- An update can be lost if a stamp comes back, and only then, once the watcher has read the
  file (`NoLostUpdateIff`); what is there at the start never reaches the gatekeeper without
  another write exactly when the start can stat the file and then not read it
  (`StartLosesIff`).

Where comments and code differ the model follows the code. `endpoint.go:119` says the
generation counts the starts; the code also advances it at every teardown, which is what makes
it odd exactly while running.

## Model

| member | source | states |
|---|---|---|
| UpstreamPool.DialJudgement | apps/gatekeeper/pkg/proxy/upstream.go:175-232 | a dial is admitted iff the leaf is the one in force at the end, or there is no pin at either end, and a pin read at the start only makes it stricter; a refusal names the first of the two pins that differs |
| UpstreamPool.DialDecision | apps/gatekeeper/pkg/proxy/upstream.go:175-232 | whatever happened during the handshake, pin A→B→A included, the connection enters the pool iff the two pins the dial read allow its leaf; nothing else moves |
| UpstreamPool.EveryRunIsSafe | apps/gatekeeper/pkg/proxy/upstream.go:116-239 | in every interleaving: under a non-empty pin all registered connections presented that leaf; every connection handed out is exactly one of registered, being closed, closed; a sweep takes only connections registered before it and leaves none of them; none is ever in the pool under another pin than the one it was registered under |
| UpstreamPool.PoolIsAlwaysSafe | apps/gatekeeper/pkg/proxy/upstream.go:90-110 | a new pool has all of this, and keeps it whatever is done with it |
| UpstreamPool.GoneForGood | apps/gatekeeper/pkg/proxy/upstream.go:157-165 | a connection that left the pool is never in it again, and a closed one stays closed |
| UpstreamPool.SetPinSweepsIffItChanges | apps/gatekeeper/pkg/proxy/upstream.go:116-139 | interleaved with anything: the pin in force set again changes nothing at all; a real change hands every registered connection, and nothing else, to the closer |
| UpstreamPool.ClosesTakeWhatTheyClose | apps/gatekeeper/pkg/proxy/upstream.go:141-165 | closeAll takes every registered connection under any pin, a close takes the one, and neither moves anything else |
| UpstreamPool.DialSpansItsPins | apps/gatekeeper/pkg/proxy/upstream.go:175-232 | a whole dial, whatever happens between its two lock holds: its connection is registered iff its leaf is the one pinned at the end, or nothing is pinned at either end, and no other leaf was pinned at the start |
| UpstreamPool.FailedDialIsOver | apps/gatekeeper/pkg/proxy/upstream.go:182-200 | a dial that failed touches no connection and can never register one |
| UpstreamPool.TrackedConn.Move | apps/gatekeeper/pkg/proxy/upstream.go:246-267 | bytes moved in either direction are added to their counter, and the traffic answered grows by both |
| UpstreamPool.TrackedConn.Close | apps/gatekeeper/pkg/proxy/upstream.go:269-272 | closing takes the connection out of its pool once, however often it is called |
| UpstreamPool.Pool.SetPin | apps/gatekeeper/pkg/proxy/upstream.go:116-139 | the pin in force set again leaves every registered connection registered and unchanged; a real change empties the pool and closes every connection it had |
| UpstreamPool.Pool.CloseAll | apps/gatekeeper/pkg/proxy/upstream.go:141-148 | every registered connection is taken and closed, the pin stays |
| UpstreamPool.Pool.TakeConns | apps/gatekeeper/pkg/proxy/upstream.go:150-163 | hands over every registered connection and leaves the pool empty |
| UpstreamPool.Pool.CloseEach | apps/gatekeeper/pkg/proxy/upstream.go:125-139 | closes each connection of a sweep outside the lock while Close calls back into the pool; others are untouched |
| UpstreamPool.Pool.FinishDialing | apps/gatekeeper/pkg/proxy/upstream.go:175-232 | the second lock hold of a dial: registers a fresh connection of the observed leaf iff both checks pass, else names the pin that refuses it and changes nothing |
| UpstreamPool.Pool.ForgetConn | apps/gatekeeper/pkg/proxy/upstream.go:235-239 | exactly this connection leaves the pool |
| EndpointLifecycle.EveryRunIsSound | apps/gatekeeper/pkg/proxy/endpoint.go:243-534 | over all runs: the generation is odd iff running; a running endpoint carries no bind or serve error; at most one verification is in flight, across restarts; no verdict in force began before the last teardown; firstVerdict is closed iff a verdict is held; no channel is closed twice; the attestation times follow the verdict |
| EndpointLifecycle.StartsBindOrSayWhy | apps/gatekeeper/pkg/proxy/endpoint.go:243-298 | every answer of a start and everything it changes, by the state and by what the bind answers |
| EndpointLifecycle.RepeatedRefusalsAreReportedOnce | apps/gatekeeper/pkg/proxy/endpoint.go:256-266 | an address that keeps refusing for the same reason is reported once, however often the loop tries it |
| EndpointLifecycle.TeardownsTakeDown | apps/gatekeeper/pkg/proxy/endpoint.go:312-410 | a stop takes down a running endpoint and nothing else, a Serve failure only the generation it served; what is left of it, and that a release is owed |
| EndpointLifecycle.IntentIsTheLastWord | apps/gatekeeper/pkg/proxy/endpoint.go:361-373 | after every run an endpoint is wanted iff the operator's last word says so, whatever binds, dies, stops or is verified, and an endpoint that is down is started by the loop iff it is wanted; the clock is the sum of its ticks |
| EndpointLifecycle.OnlyThreeThingsClose | apps/gatekeeper/pkg/proxy/endpoint.go:339-358 | no step closes a connection but a verdict reaching the pool, a closeAll and a release |
| EndpointLifecycle.ConfidentialMeansServing | apps/gatekeeper/pkg/proxy/endpoint.go:720-763 | after every run each of the five answers of snapshot, iff: confidential is running under an admitting verdict, non-confidential running under a denial in fail-open mode, attesting running without a verdict, stopped down without an error, and broken what remains |
| EndpointLifecycle.NoWaiterIsForgotten | apps/gatekeeper/pkg/proxy/endpoint.go:493-530 | a done channel is always carried by a flight, owed a close or closed, in every continuation, and is closed once no flight is in the air and no close is owed |
| EndpointLifecycle.JoinersWaitForTheFlight | apps/gatekeeper/pkg/proxy/endpoint.go:493-502 | a caller that joins waits on the channel of a verification that is in the air, of whatever generation |
| EndpointLifecycle.JoinersFind | apps/gatekeeper/pkg/proxy/endpoint.go:493-530 | after every run, a landing installs its answer, which is what those who joined it find, iff the generation has not moved since it took off; if there was a teardown in between they find no verdict |
| EndpointLifecycle.OnDemandStartsIff | apps/gatekeeper/pkg/proxy/endpoint.go:486-506 | after every run a request with window r starts a verification iff none is in the air and no verdict younger than r is held; any other request changes nothing |
| EndpointLifecycle.BeginAnswers | apps/gatekeeper/pkg/proxy/endpoint.go:486-502 | a caller is given a verdict younger than its window as it is, else waits for the flight in the air, else takes off in the current generation |
| EndpointLifecycle.FirstAnswerCounts | apps/gatekeeper/pkg/proxy/endpoint.go:508-520 | the answer of a verification, with the moment it came, is what its landing finds, whatever happens until then |
| EndpointLifecycle.RestartMidFlightStaysUnverified | apps/gatekeeper/pkg/proxy/endpoint.go:429-432 | a stop and a start during a verification, whose new loop joins it, end in a running endpoint with no verdict, nobody verifying, and a next delay of the whole interval |
| EndpointLifecycle.GenerationOnlyGrows | apps/gatekeeper/pkg/proxy/endpoint.go:243-410 | no step takes the generation back |
| EndpointLifecycle.OlderGenerationsAreHarmless | apps/gatekeeper/pkg/proxy/endpoint.go:312-358 | once the generation passed g, at any later time a Serve failure of g changes nothing, a release of g closes nothing, and a verification begun in g is discarded when it lands |
| EndpointLifecycle.ReleaseClosesUnlessRestarted | apps/gatekeeper/pkg/proxy/endpoint.go:339-358 | the release a teardown owes, at whatever later time it comes, closes every open connection iff no start has bound since that teardown, and none if one has |
| EndpointLifecycle.ReleaseActsOnlyWhenDown | apps/gatekeeper/pkg/proxy/endpoint.go:339-358 | the other direction: a release that acts finds the endpoint down and only connections of finished generations |
| EndpointLifecycle.EveryRunIsPaced | apps/gatekeeper/pkg/proxy/endpoint.go:486-534 | within one generation every on-demand verification starts at least its window after every earlier start, forced ones included |
| EndpointLifecycle.OnDemandRate | apps/gatekeeper/pkg/proxy/endpoint.go:582-607 | n on-demand verifications of one generation with window r need a span of at least (n - 1) r, however many requests arrive |
| EndpointLifecycle.VerdictsReachThePool | apps/gatekeeper/pkg/proxy/endpoint.go:611-624 | applying a verdict pins the leaf it admits, or none, closes what was open iff that changes the pin, and owes a closeAll iff it denies under fail-closed |
| EndpointLifecycle.OrderlyRunsPinTheVerdict | apps/gatekeeper/pkg/proxy/endpoint.go:519-534 | if verdicts are applied in the order they were installed, then with none left to apply the pool is pinned to what the verdict in force attests |
| EndpointLifecycle.OrderPinsTheVerdictIff | apps/gatekeeper/pkg/proxy/endpoint.go:611-624 | an order of applying n installed verdicts leaves the pin of the verdict in force, after every run from the start that installs them, iff the one installed last is applied last |
| EndpointLifecycle.OutOfOrderApplyMisleadsThePin | apps/gatekeeper/pkg/proxy/endpoint.go:522-532 | two verifications landing in one order and applied in the other leave the pool pinned to a leaf the verdict in force does not attest |
| EndpointLifecycle.Endpoint.constructor | apps/gatekeeper/pkg/proxy/endpoint.go:148-177 | a new endpoint is wanted, not running, at generation 0 with an open firstVerdict |
| EndpointLifecycle.Endpoint.SetDesired | apps/gatekeeper/pkg/proxy/endpoint.go:369-373 | records the intent and nothing else |
| EndpointLifecycle.Endpoint.StartListener | apps/gatekeeper/pkg/proxy/endpoint.go:243-298 | no-op when running, or unwanted under onlyIfWanted; a refused bind is recorded and reported unless it repeats; a bind clears both errors and advances the generation |
| EndpointLifecycle.Endpoint.TearDown | apps/gatekeeper/pkg/proxy/endpoint.go:382-391 | drops the verdict and its times, opens a fresh firstVerdict and advances the generation |
| EndpointLifecycle.Endpoint.Stop | apps/gatekeeper/pkg/proxy/endpoint.go:376-410 | tears down a running endpoint once, leaves one that is down untouched, keeps the intent, and returns the generation its release is held to |
| EndpointLifecycle.Endpoint.ServeFailed | apps/gatekeeper/pkg/proxy/endpoint.go:312-338 | acts only for the generation that is running, and records why |
| EndpointLifecycle.Endpoint.BeginAttest | apps/gatekeeper/pkg/proxy/endpoint.go:486-506 | reuses the held verdict iff there is a window and the verdict is younger than it; else joins the flight in the air, else takes off on a fresh channel; only a take-off changes anything |
| EndpointLifecycle.Endpoint.FinishAttest | apps/gatekeeper/pkg/proxy/endpoint.go:510-534 | installs a result of the same generation, closing firstVerdict once, discards one of an older generation, and closes its done channel either way |
| EndpointLifecycle.Endpoint.ArmNext | apps/gatekeeper/pkg/proxy/endpoint.go:469-475 | schedules the next verification only while running |
| EndpointLifecycle.ApplyToPool | apps/gatekeeper/pkg/proxy/endpoint.go:611-624 | afterwards the pool is pinned to what the verdict attests and holds no other leaf; the leaf already pinned keeps every connection untouched; a denial under fail-closed closes every connection |
| AttestedTraffic.EveryRunIsCoupled | apps/gatekeeper/pkg/proxy/endpoint.go:611-624 | in every interleaving of an endpoint with its pool, the invariants of both hold and the pool is under the pin of the verdict applied last |
| AttestedTraffic.TrafficFollowsTheVerdictApplied | apps/gatekeeper/pkg/proxy/endpoint.go:611-624 | whatever the order of applying: every registered connection presented the leaf of the verdict applied last, if that admits one |
| AttestedTraffic.TrafficIsAttested | apps/gatekeeper/pkg/proxy/endpoint.go:519-534 | verdicts applied in order and none left to apply: while a verdict admitting a leaf is in force, every registered connection presented exactly that leaf, with dials of two lock holds anywhere, and the verdict was begun since the last teardown |
| AttestedTraffic.PoolRunsOnItsOwn | apps/gatekeeper/pkg/proxy/upstream.go:116-239 | every run of endpoint and pool together is for the pool a run of its own: pins and closeAlls from the endpoint, dials and closes as they are |
| AttestedTraffic.DialSpansTheVerdicts | apps/gatekeeper/pkg/proxy/upstream.go:175-232 | a whole dial while verdicts come and go: its connection carries traffic iff it presented the leaf of the verdict applied last when it ends, or nothing is admitted then nor was when it began, and no other leaf was admitted when it began |
| AttestedTraffic.SameLeafKeepsTraffic | apps/gatekeeper/pkg/proxy/endpoint.go:611-616 | in every run: a verdict that admits the leaf already pinned, as every re-attestation of an unchanged upstream does, changes nothing in the pool |
| AttestedTraffic.OtherLeafCutsTraffic | apps/gatekeeper/pkg/proxy/endpoint.go:611-624 | a verdict that pins another leaf, or denies, takes every registered connection to be closed |
| AttestedTraffic.DrainCutsTraffic | apps/gatekeeper/pkg/proxy/endpoint.go:617-624 | the closeAll that a denial under fail-closed owes takes every connection registered by then |
| AttestedTraffic.ReleaseCutsTrafficUnlessRestarted | apps/gatekeeper/pkg/proxy/endpoint.go:339-358 | the release a teardown owes leaves no registered connection iff no start has bound since; all it had are being closed or closed; if a start has bound, the pool is untouched |
| AttestSchedule.Schedule.Next | apps/gatekeeper/pkg/proxy/endpoint.go:446-460 | one turn: the delay answered and the backoff kept for the next denial |
| AttestSchedule.Schedule.Delays | apps/gatekeeper/pkg/proxy/endpoint.go:423-462 | the loop answers each verdict of a history with the delay the history determines |
| AttestSchedule.BackoffIsDoubling | apps/gatekeeper/pkg/proxy/endpoint.go:446-460 | after any history the backoff is the first one doubled once per denial in the current run, capped |
| AttestSchedule.DelayInClosedForm | apps/gatekeeper/pkg/proxy/endpoint.go:426-460 | the k-th consecutive denied delay is min(min(b 2^k, max), interval), and any other delay is the interval |
| AttestSchedule.DelaysInNumbers | apps/gatekeeper/pkg/proxy/endpoint.go:426-460 | the k-th consecutive denied delay is 2 s doubled k times, at most 30 s and at most the interval; with an override it is always the override |
| AttestSchedule.DenialsBackOff | apps/gatekeeper/pkg/proxy/supervisor.go:168-182 | delays never shrink within a run of denials and never exceed the re-attest interval |
| Supervisor.FindEndpoint | apps/gatekeeper/pkg/proxy/supervisor.go:363-370 | the first endpoint of that name, or none has it |
| Supervisor.Pick | apps/gatekeeper/pkg/proxy/supervisor.go:293-308 | an entry keeps its predecessor iff name and settings are the same; otherwise it is built, iff its upstream parses |
| Supervisor.Build | apps/gatekeeper/pkg/proxy/supervisor.go:288-308 | the first loop: fails iff some new entry's upstream does not parse; else one endpoint per entry in order, and a name survives iff its predecessor is asked for unchanged |
| Supervisor.Unnamed | apps/gatekeeper/pkg/proxy/supervisor.go:310-315 | the second loop: exactly the predecessors whose name does not survive |
| Supervisor.RetireAll | apps/gatekeeper/pkg/proxy/supervisor.go:322-338 | every retired endpoint ends unwanted and down, and exactly the addresses they listened on are free |
| Supervisor.StartReplacements | apps/gatekeeper/pkg/proxy/supervisor.go:339-352 | an endpoint rebuilt under a retired name tries its address at once, a new name is left alone |
| Supervisor.SwitchOver | apps/gatekeeper/pkg/proxy/supervisor.go:319-352 | because retiring comes first, a replacement comes up iff its address is free once all that leave have released theirs |
| Supervisor.Supervisor.Reload | apps/gatekeeper/pkg/proxy/supervisor.go:282-361 | run with nothing interleaved: on failure nothing changes; on success one endpoint per entry in order, unchanged entries keep the same object untouched, every other predecessor ends unwanted and down, every replacement is up or carries the reason, every newcomer is wanted and down |
| Supervisor.Revisit | apps/gatekeeper/pkg/proxy/supervisor.go:437-460 | one endpoint of a pass: a wanted one ends running or with a bind error, a running or unwanted one is untouched |
| Supervisor.Supervisor.Reconcile | apps/gatekeeper/pkg/proxy/supervisor.go:428-464 | with nothing interleaved: after a pass every wanted endpoint runs or carries the bind error that explains why not, no unwanted one was started, and the count is of those brought up; a closed supervisor does nothing |
| Supervisor.Supervisor.Start | apps/gatekeeper/pkg/proxy/supervisor.go:226-242 | the named endpoint is wanted even if the bind fails, the error is the bind's, others are untouched, an unknown name changes nothing |
| Supervisor.Supervisor.Stop | apps/gatekeeper/pkg/proxy/supervisor.go:249-258 | the named endpoint is unwanted and down and its address free, others untouched |
| ReloadRuns.SwapFollowsTheConfiguration | apps/gatekeeper/pkg/proxy/supervisor.go:288-316 | after the swap entry i of the list has exactly the name and settings of entry i of the configuration, old objects are untouched and new ones pristine |
| ReloadRuns.UnchangedEntriesKeepTheirObject | apps/gatekeeper/pkg/proxy/supervisor.go:293-298 | an entry with the same name and settings keeps the same object, generation and all, even at another position |
| ReloadRuns.AccountedIffDistinctNames | apps/gatekeeper/pkg/proxy/supervisor.go:310-315 | every predecessor is kept or retired under every configuration iff no two share a name |
| ReloadRuns.KeptIsNotRetired | apps/gatekeeper/pkg/proxy/supervisor.go:310-315 | no predecessor is both kept and retired |
| ReloadRuns.SecondReloadKeepsEverything | apps/gatekeeper/pkg/proxy/supervisor.go:282-361 | reloading the configuration in force keeps every object, builds, retires and restarts nothing |
| ReloadRuns.EveryRunIsSound | apps/gatekeeper/pkg/proxy/supervisor.go:226-464 | in every interleaving of one reload at a time with any passes, operators and dying listeners: no two entries in force share a name, what is retired is not in force, what left the list is down or still to be retired, unless an operator's Start reached it too late, and no object vanishes or changes its settings |
| ReloadRuns.RetiredObjectsAreDown | apps/gatekeeper/pkg/proxy/supervisor.go:319-338 | once retired, an object that left the list is unwanted and not running whatever lists the passes still hold, unless a late Start reached it |
| ReloadRuns.RetiredForGoodIff | apps/gatekeeper/pkg/proxy/supervisor.go:319-338 | an object out of the list that is unwanted and down is so in every continuation, whatever reloads, passes and dying listeners do, iff no operator's Start that has looked it up is in flight |
| ReloadRuns.WokenIff | apps/gatekeeper/pkg/proxy/supervisor.go:428-464 | the step behind it: an unwanted object that is down is woken by a step iff the step is an operator's Start reaching it or a reload rebuilding it; never by a reconcile pass |
| ReloadRuns.LateStartRevives | apps/gatekeeper/pkg/proxy/supervisor.go:226-242 | a Start that looked its endpoint up before a reload retired it leaves the retired object wanted, running and in no list |
| ReloadRuns.PassServesOrSaysWhy | apps/gatekeeper/pkg/proxy/supervisor.go:428-464 | an endpoint wanted and in force when a pass begins, that stays in force, is not stopped by an operator and whose listener does not die meanwhile, is wanted and runs when the pass is done or carries the bind error, with reloads, other passes, operators starting and other listeners dying between any two reads of the pass |
| ReloadRuns.PassReachesEveryEndpoint | apps/gatekeeper/pkg/proxy/supervisor.go:437-460 | whatever its error fields held before: no pass is done without having found such an endpoint running or having tried to start it |
| ReloadRuns.NoSilentStop | apps/gatekeeper/pkg/proxy/supervisor.go:428-464 | if its own listener may die during the pass too, such an endpoint is at least not reported stopped when the pass is done |
| ReloadRuns.PassGoesOn | apps/gatekeeper/pkg/proxy/supervisor.go:437-460 | a pass that is not done can always take its next lock hold, each brings it closer to its end, it has at most four an endpoint, and no step of anybody else moves it |
| ReloadRuns.PassesReadTheList | apps/gatekeeper/pkg/proxy/supervisor.go:428-436 | a pass begins with every endpoint in force, in order |
| ReloadRuns.LooksAsk | apps/gatekeeper/pkg/proxy/supervisor.go:437-450 | the three questions of a pass and where each answer leads |
| ReloadRuns.TriesStart | apps/gatekeeper/pkg/proxy/supervisor.go:451-460 | the try of a pass binds a wanted endpoint that is down, or records why not, and leaves any other alone |
| ReloadRuns.CallsLookUp | apps/gatekeeper/pkg/proxy/supervisor.go:226-258 | an operator reaches the endpoint in force under the name, or is refused and changes nothing |
| ReloadRuns.CallsDoWhatTheySay | apps/gatekeeper/pkg/proxy/supervisor.go:226-258 | first the intent, then the bind or the teardown, on the endpoint that was looked up |
| ReloadRuns.DyingListenersSayWhy | apps/gatekeeper/pkg/proxy/endpoint.go:312-338 | a listener that dies takes down the endpoint whose generation it served, with the reason, and touches no other and no intent |
| ReloadRuns.ReloadsRetireThenRebuild | apps/gatekeeper/pkg/proxy/supervisor.go:319-352 | all of the retired lose their intent and then their listener before the first replacement is brought up |
| ReloadRuns.ReplacingIff | apps/gatekeeper/pkg/proxy/supervisor.go:339-348 | an entry is brought up at once iff it was built and a retired endpoint had its name |
| ReloadPlans.PlanIsTheSwap | apps/gatekeeper/pkg/proxy/supervisor.go:288-348 | what the loops over endpoint objects keep, build, retire and replace is, entry by entry, what the interleaved swap step does |
| Replay.EveryRunDeliversTheSource | apps/gatekeeper/pkg/proxy/replay.go:129-188 | whatever chunks arrive, whichever views read and whenever it overflows: the recording is what was read, at most 64 KiB, or empty after an overflow, and each view was given one unbroken stretch of the source |
| Replay.OverflowsPast64KiB | apps/gatekeeper/pkg/proxy/replay.go:129-188 | after every run: the body has overflowed iff more than 65536 bytes of it were read; it holds all that was read until then and nothing afterwards |
| Replay.CleanViewsDeliverAPrefix | apps/gatekeeper/pkg/proxy/replay.go:149-188 | a view opened before the body overflowed has delivered a prefix of the source, and the recording holds at most 64 KiB |
| Replay.DeliversAPrefixIff | apps/gatekeeper/pkg/proxy/replay.go:149-188 | for bodies of one length: what a view has delivered is a prefix of the body for every content iff the view was opened before the overflow or has delivered nothing |
| Replay.RunsHaveOneShape | apps/gatekeeper/pkg/proxy/replay.go:167-188 | positions, lengths and the overflow of a run depend on the length of the source, never on its bytes |
| Replay.ReadsMakeProgress | apps/gatekeeper/pkg/proxy/replay.go:167-188 | a served read is empty only if nothing was asked for or nothing came; recorded bytes are replayed in order, as many as were asked for, without touching the source; past them the bytes are the next of the source |
| Replay.SupersededViewsAreSilent | apps/gatekeeper/pkg/proxy/replay.go:160-172 | once a newer view is open an older one is given nothing more |
| Replay.RewindableIsNotEnough | apps/gatekeeper/pkg/proxy/replay.go:53-63 | a body that was rewindable when asked can still give the second view a stretch that misses the start |
| Replay.ReplayBody.View | apps/gatekeeper/pkg/proxy/replay.go:160-165 | a fresh view at position 0 becomes the one that is served |
| Replay.ReplayBody.Read | apps/gatekeeper/pkg/proxy/replay.go:167-188 | a superseded view gets an error and changes nothing; the current one replays, records or streams past the limit |
| RoundTrip.AttemptTrace.OnGotConn | apps/gatekeeper/pkg/proxy/replay.go:88-100 | the last hand-over wins, and what is noted are both counters of its connection at that moment |
| RoundTrip.AttemptTrace.Replayable | apps/gatekeeper/pkg/proxy/replay.go:102-121 | never after a cancellation or a leaf mismatch; always without a connection; else iff the connection was reused and neither its written nor its read counter has moved since the hand-over |
| RoundTrip.CountersOnlyGrow | apps/gatekeeper/pkg/proxy/upstream.go:254-267 | the written and the read counter each grow by what moves on their connection |
| RoundTrip.TrafficOfTheObject | apps/gatekeeper/pkg/proxy/upstream.go:267-267 | loaded with nothing in between, the traffic of a tracked connection is the sum of its two counters, on the object and on the network alike |
| RoundTrip.TraceIsExact | apps/gatekeeper/pkg/proxy/replay.go:80-121 | for every list of events, with others moving bytes between the two loads of traffic(), the trace knows the last hand-over and the two counters together exceed what it noted by what crossed since |
| RoundTrip.JudgementIsExact | apps/gatekeeper/pkg/proxy/replay.go:102-121 | an unchanged sum of two counters loaded one after the other means that neither moved |
| RoundTrip.OwnBytesAreSeen | apps/gatekeeper/pkg/proxy/replay.go:88-121 | every byte of the request moved before its last hand-over, or is among those that crossed since |
| RoundTrip.LawfulHidesNothing | apps/gatekeeper/pkg/proxy/replay.go:88-100 | a transport that moves a request only on a connection it handed over, and never moves it on after it has moved bytes, hides none |
| RoundTrip.ReplayedIff | apps/gatekeeper/pkg/proxy/replay.go:49-67 | at most two attempts, and a second one iff the first failed for a reason that may be retried, the context is live, the body rewinds, and there was no connection or a reused one that carried nothing |
| RoundTrip.TripAddsUp | apps/gatekeeper/pkg/proxy/replay.go:49-67 | nothing is counted twice or lost: after a round trip the counters of every connection are what they were plus what crossed it in the first attempt, up to the judgement, and in the second if there was one |
| RoundTrip.GuardIsSafeIff | apps/gatekeeper/pkg/proxy/replay.go:49-121 | for what a transport does: no request that moved a byte is sent again, whatever happens around it, iff the guard refuses the attempt or no byte of the request moved before the last hand-over |
| RoundTrip.AtMostOneAttemptMoves | apps/gatekeeper/pkg/proxy/replay.go:49-121 | if no byte of the request moved before its last hand-over, and there is a second attempt, the first moved no byte in either direction, whatever else moves bytes on the same connections |
| RoundTrip.InternalRetryDefeatsTheGuard | apps/gatekeeper/pkg/proxy/replay.go:88-121 | moving a request to another connection after it has written makes the guard unsafe |
| Base64.DecodeUndoesEncode | apps/gatekeeper/pkg/attestation/digest.go:163-176 | decoding undoes encoding for every byte string (RFC 4648, section 5) |
| Base64.EncodeUndoesDecodeIff | apps/gatekeeper/pkg/attestation/digest.go:163-176 | a decodable text re-encodes to itself iff the bits of its last sextet that no byte uses are zero (RFC 4648, section 3.5) |
| Base64.HexDecodesIff | apps/gatekeeper/pkg/attestation/digest.go:95-100 | a text decodes as hex iff it is an even number of hex digits |
| Base64.HexEncodeUndoesDecode | apps/gatekeeper/pkg/attestation/digest.go:95-100 | what decodes as hex re-encodes to its lower-case spelling |
| Base64.AlphabetsInCodePoints | apps/gatekeeper/pkg/attestation/digest.go:163-176 | both alphabets by code point (RFC 4648, sections 5 and 8); hex is read in either case |
| Base64.GroupIsOneNumber | apps/gatekeeper/pkg/attestation/digest.go:163-176 | three bytes are one number of 24 bits, cut into four sextets from the top; shorter groups are padded with zero bits |
| Base64.StandardVectors | apps/gatekeeper/pkg/attestation/digest.go:163-176 | the vectors of RFC 4648, section 10 |
| Base64.HexOfOneByte | apps/gatekeeper/pkg/attestation/digest.go:95-100 | the high digit comes first, in both directions |
| EvidenceDigest.FinalLetterTable | libs/types/src/evidence-digest.ts:33-33 | the sixteen final letters are exactly those whose two low bits are zero |
| EvidenceDigest.CanonicalChecksAgree | apps/gatekeeper/pkg/attestation/digest.go:163-176 | decode, measure, re-encode and compare accepts exactly what the regular expression with the final-letter table accepts |
| EvidenceDigest.NormalizesIffDenotes | apps/gatekeeper/pkg/attestation/digest.go:81-101 | a text normalises to the canonical form of a digest iff it is one of its spellings in the four families, and to anything only if it is a spelling |
| EvidenceDigest.SpellingsAreRead | apps/gatekeeper/pkg/attestation/digest.go:81-101 | the five literal spellings of a digest, with any white space around them, normalise to sha256/ and its base64url |
| EvidenceDigest.EqualIffSameBytes | apps/gatekeeper/pkg/attestation/digest.go:117-130 | two accepted spellings compare equal iff they denote the same 32 bytes |
| EvidenceDigest.EqualFailsIff | apps/gatekeeper/pkg/attestation/digest.go:117-130 | comparing fails iff one of the two texts is no spelling of any digest |
| EvidenceDigest.NormalizeRoundTrips | apps/gatekeeper/pkg/attestation/digest.go:81-157 | normalising is idempotent, and the hex form shown to a reader normalises to the same digest |
| EvidenceDigest.ParsersAgree | libs/types/src/evidence-digest.ts:44-71 | the Go and the TypeScript parser accept the same texts, return the same canonical form and call the same texts canonical |
| EvidenceDigest.RenderingsAgree | libs/types/src/evidence-digest.ts:80-95 | both sides render every accepted spelling alike; on what is no digest Go returns it unchanged where TypeScript throws |
| EvidenceDigest.BtoaIsEncode | libs/types/src/evidence-digest.ts:110-117 | btoa, the two replacements and the stripped padding are the raw url encoding |
| EvidenceDigest.AtobIsDecode | libs/types/src/evidence-digest.ts:101-107 | the replacements and atob are the raw url decoding |
| EvidenceDigest.HexToBase64Url | libs/types/src/evidence-digest.ts:110-117 | the loop over digit pairs encodes the bytes the digits spell |
| EvidenceDigest.Base64UrlToHex | libs/types/src/evidence-digest.ts:101-108 | the loop over decoded bytes spells each as two digits, and an undecodable text is an error |
| ProtoWalker.VarintLoop | libs/attestation/src/root-tee-evidence.ts:684-698 | the loop of at most ten groups reads the base-128 number, or fails on a message or a number that goes on too long |
| ProtoWalker.FieldAt | libs/attestation/src/root-tee-evidence.ts:641-681 | one turn of the walk: the field, in bounds, with its error cases |
| ProtoWalker.FieldsLoop | libs/attestation/src/root-tee-evidence.ts:641-681 | the walk ends on every byte string, having yielded the fields before the first error |
| ProtoWalker.TagsDecide | libs/attestation/src/root-tee-evidence.ts:641-681 | for every field number and wire type, on encoded tags: the field, or the error and which; number 0 and the wire types 3, 4, 6 and 7 are errors |
| ProtoWalker.MalformedVarints | libs/attestation/src/root-tee-evidence.ts:684-698 | a tag that cannot be read is malformed, and ten groups that all go on cannot be read |
| ProtoWalker.WireExamples | libs/attestation/src/root-tee-evidence.ts:641-681 | bytes of one field of each wire type, read as the encoding defines them |
| ProtoWalker.TurnIsLocal | libs/attestation/src/root-tee-evidence.ts:641-681 | a field that is complete does not depend on what follows |
| ProtoWalker.TurnShift | libs/attestation/src/root-tee-evidence.ts:641-681 | a field does not depend on what came before it |
| ProtoWalker.WalkIsHomomorphic | libs/attestation/src/root-tee-evidence.ts:641-681 | if a parses, walking a + b is walking a and then b, errors included |
| ProtoWalker.RecordsPartition | libs/attestation/src/root-tee-evidence.ts:641-681 | the records of the fields, each re-parsing to its field with the payload as its tail, partition what was consumed, and all is consumed iff there is no error |
| ProtoWalker.VarintRoundTrip | libs/attestation/src/root-tee-evidence.ts:684-698 | an encoded varint is read back whatever surrounds it |
| ProtoWalker.SixtyFourBitsAreEncodable | libs/attestation/src/root-tee-evidence.ts:683-684 | every 64-bit value fits in ten groups |
| ProtoWalker.MessageRoundTrip | libs/attestation/src/root-tee-evidence.ts:641-698 | the walker undoes the encoder for every list of fields with numbers from 1 |
| LittleEndian.ReadUintLE | libs/attestation/src/root-tee-evidence.ts:581-587 | the loop reads the base-256 sum of the bytes |
| LittleEndian.ByteOfSum | libs/attestation/src/root-tee-evidence.ts:564-566 | byte i of a little-endian read is byte i of what was read |
| LittleEndian.BitOfSum | libs/attestation/src/root-tee-evidence.ts:560-562 | bit n of a little-endian read is bit n mod 8 of byte n div 8 |
| TeeEvidence.SecurityFieldsOf | libs/attestation/src/root-tee-evidence.ts:524-534 | every fixed-offset read is in bounds for a report of full length |
| TeeEvidence.SecurityReadsTheReport | libs/attestation/src/root-tee-evidence.ts:315-344 | every decomposed field equals the report bytes and bits its layout gives it |
| EvidenceLaws.WordsOfTheReport | libs/attestation/src/root-tee-evidence.ts:315-327 | version, guest SVN, VMPL, the policy and the three TCB words are the little-endian words at their literal offsets |
| TeeEvidence.TcbReadsBytes | libs/attestation/src/root-tee-evidence.ts:550-558 | each TCB component is the report byte at its offset |
| TeeEvidence.PolicyReadsBytes | libs/attestation/src/root-tee-evidence.ts:536-548 | each policy flag is one bit of one report byte |
| TeeEvidence.BindsPublicKeyLoop | libs/attestation/src/root-tee-evidence.ts:622-628 | the key is bound iff the first 32 bytes of the report data are its digest |
| TeeEvidence.SnpReportLoop | libs/attestation/src/root-tee-evidence.ts:590-613 | the nested loops return the last report and build seen, and fail on a missing or short report |
| EvidenceLaws.LastReportDecides | libs/attestation/src/root-tee-evidence.ts:590-613 | the report message that comes last decides: its field 1 is the report, refused below 1184 bytes, its field 5 the release, dropped if empty |
| EvidenceLaws.NoReportIsRefused | libs/attestation/src/root-tee-evidence.ts:604-606 | a branch without a report message is refused for that |
| EvidenceLaws.MalformedBranchesAreRefused | libs/attestation/src/root-tee-evidence.ts:590-602 | a branch that does not parse is refused for its own error, unless a report message before it does not parse: then for that of the first such |
| TeeEvidence.HclFields | libs/attestation/src/root-tee-evidence.ts:472-500 | every read of an HCL report is in bounds under the length checks before it, and the answer is the one `EvidenceLaws.HclReportSays` states by the byte |
| EvidenceLaws.HclReportSays | libs/attestation/src/root-tee-evidence.ts:472-513 | by literal offsets: a report shorter than its runtime data is refused; the key is bound iff the 32 bytes at 112 (SEV-SNP) or 160 (TDX) are the digest of the runtime data and its user data begins with the key digest; runtime data that is not JSON is an error only if committed to; where the measurement and the security fields come from |
| TeeEvidence.AzureFieldsLoop | libs/attestation/src/root-tee-evidence.ts:465-500 | the last HCL report of a branch decides |
| EvidenceLaws.LastHclReportDecides | libs/attestation/src/root-tee-evidence.ts:465-473 | the field 1 that comes last is the HCL report, refused below 1236 bytes or if it does not begin with HCLA |
| EvidenceLaws.NoHclReportIsRefused | libs/attestation/src/root-tee-evidence.ts:468-473 | a branch without one is refused for that |
| EvidenceLaws.MalformedAzureBranchIsRefused | libs/attestation/src/root-tee-evidence.ts:465-467 | an Azure branch that does not parse is refused for that, whatever HCL report it held before |
| TeeEvidence.DecodeEvidence | libs/attestation/src/root-tee-evidence.ts:385-441 | the decoding loop: a second branch is refused when it is met, no branch or an empty message is an error |
| EvidenceLaws.BranchesByNumber | libs/attestation/src/root-tee-evidence.ts:385-441 | which field number is which branch, and of a SEV-SNP branch: the measurement is report bytes 144 to 192 and the key is bound iff bytes 80 to 112 are its digest |
| EvidenceLaws.RefusalsInOrder | libs/attestation/src/root-tee-evidence.ts:385-441 | which message is refused for what, and in which order the refusals come |
| TeeEvidence.DecodesExactlyOneBranch | libs/attestation/src/root-tee-evidence.ts:385-441 | decoding succeeds iff the message parses, exactly one field is a recognised branch and that branch decodes; the result is that branch's |
| TeeEvidence.UnknownFieldsAreSkipped | libs/attestation/src/root-tee-evidence.ts:385-441 | well-formed unknown fields inserted at any field boundary of the message change nothing |
| TeeEvidence.BranchPayloadDecides | libs/attestation/src/root-tee-evidence.ts:385-441 | two payloads of a branch that mean the same can be exchanged in any message |
| TeeEvidence.UnknownFieldsBesideTheReport | libs/attestation/src/root-tee-evidence.ts:590-613 | the same beside the report of the SEV-SNP branch |
| TeeEvidence.UnknownFieldsInsideTheReport | libs/attestation/src/root-tee-evidence.ts:590-613 | the same inside the report message |
| TeeEvidence.UnknownFieldsBesideTheHclReport | libs/attestation/src/root-tee-evidence.ts:465-473 | the same inside the Azure branches |
| TeeEvidence.UnknownFieldsInABranch | libs/attestation/src/root-tee-evidence.ts:385-441 | unknown fields inside whichever branch the message carries leave the decoded result unchanged |
| TeeEvidence.UnknownFieldsInTheReportMessage | libs/attestation/src/root-tee-evidence.ts:385-441 | and so do unknown fields three levels down, inside the report message of the branch of a message |
| ConfigWatcher.NoLostUpdateIff | apps/gatekeeper/pkg/sidecar/sidecar.go:239-287 | for a history of the file: at every point of every schedule, a started watcher that remembers the current stamp has given the gatekeeper the current content, or it does not load, iff no loadable version is replaced between two moments with its stamp |
| ConfigWatcher.OneLookCatchesUp | apps/gatekeeper/pkg/sidecar/sidecar.go:261-287 | one successful look after the last write deals with it |
| ConfigWatcher.QuietUntilTheNextWrite | apps/gatekeeper/pkg/sidecar/sidecar.go:261-268 | after that no look says or changes anything until somebody writes |
| ConfigWatcher.NoSignalWithoutNews | apps/gatekeeper/pkg/sidecar/sidecar.go:261-287 | every signal is for loadable content that differs from what the gatekeeper was given last, there are no more versions given than written, and no broken render is reported twice in a row |
| ConfigWatcher.LooksSay | apps/gatekeeper/pkg/sidecar/sidecar.go:261-287 | a look that reads signals iff the content loads and is not what was given last, and reports iff it does not load and was not the last one reported; it remembers the stamp either way, and nothing if the read fails |
| ConfigWatcher.EveryRunIsSound | apps/gatekeeper/pkg/sidecar/sidecar.go:239-287 | the invariant behind these, with a writer anywhere between stat and read |
| ConfigWatcher.StartThatCannotReadIsDeaf | apps/gatekeeper/pkg/sidecar/sidecar.go:252-255 | a start whose stat succeeds and whose read fails says nothing about that version, ever |
| ConfigWatcher.StartLosesIff | apps/gatekeeper/pkg/sidecar/sidecar.go:252-268 | loadable content there at the start reaches the gatekeeper in some continuation without a write iff the start did not stat it and then fail to read it |
| ConfigWatcher.Watcher.Start | apps/gatekeeper/pkg/sidecar/sidecar.go:252-255 | remembers the stamp the stat met and the content the read met, whichever fail |
| ConfigWatcher.Watcher.Changed | apps/gatekeeper/pkg/sidecar/sidecar.go:261-287 | one look: quiet without a new stamp or a read, else the decision on the content |
| TreeMatch.TreeMatch | apps/gatekeeper/pkg/policy/builtins.go:43-63 | the loop with its flag decides the match whatever order the keys come in |
| TreeMatch.MatchesIffPathsAgree | apps/gatekeeper/pkg/policy/builtins.go:36-63 | a pattern matches iff on every path of keys that it has, the actual value has an object where it has one and the same value where it has another |
| TreeMatch.MatchesIffCutFrom | apps/gatekeeper/pkg/policy/builtins.go:36-63 | the patterns that match a value are exactly those got from it by dropping keys of nested objects |
| TreeMatch.Reflexive | apps/gatekeeper/pkg/policy/builtins.go:43-63 | every value matches itself |
| TreeMatch.Transitive | apps/gatekeeper/pkg/policy/builtins.go:43-63 | matching is transitive |
| TreeMatch.Antisymmetric | apps/gatekeeper/pkg/policy/builtins.go:43-63 | two values that match each other are equal |
| TreeMatch.MatchesSurvives | apps/gatekeeper/pkg/policy/builtins.go:36-63 | a match survives dropping a key of the pattern and adding a key to the actual value, at any depth |

## Left out

- The event bus: subscriptions with bounded buffers; its properties are single-loop facts.
- Cryptography, TLS handshakes, X.509 and DER, JSON, UTF-8 and YAML: what they answer is a parameter, fingerprints and file digests are taken as injective.
- net/http: assumed to call back on a hand-over before it writes, to have stopped moving the request's bytes when it returns an error, and, where a row says that no byte moved before the last hand-over, not to hand a request over again after it has moved some (`Lawful`).
- Metrics, audit lines, log lines and snapshots published: no effect on what is modelled.
- Real time and timers: the clock is an integer that does not go back; waiting for a verdict with a timeout (`retryDenied`, `await`) is not modelled beyond the verification it starts.
- The waits inside a stop (draining requests, the attestation loop ending): a stop is its lock hold and, later, its release.
- Re-verification of what keeps running after a reload: verifications may start at any moment in `EndpointLifecycle`, so nothing is assumed of it.
- Reloads are one at a time, as `apps/gatekeeper/pkg/cli/cmd_run.go` calls them; two at once are not part of this model.
- The choice of pool by fail mode: only the pool that carries attested traffic is modelled.
- Integer widths: generations and byte counters are unbounded here and 64-bit in Go.
- ProtoWalker.FieldAt: lengths and field numbers are exact, where the source converts them to a double, which rounds above 2^53; such lengths are past the end of any message either way.
- TeeEvidence.BindsPublicKeyLoop: the accumulated XOR of the comparison is a boolean here.
- TeeEvidence.DecodeEvidence: labels, registry folders and the hex spelling of raw values are left out of the result.
- EvidenceDigest.ParsersAgree: texts are ASCII; Go and JavaScript trim and lower different characters outside it.
- EvidenceDigest.Base64UrlToHex: atob's skipping of white space is left out; no canonical text has any.
- ConfigWatcher.NoLostUpdateIff: it is about what the watcher was given at its start; the child process is started before that and may have read an earlier version.
- ConfigWatcher.Watcher.Changed: a read returns the content of one version; a read torn across two writes is a version of its own only if the writer is modelled as writing it.
- Supervisor.Supervisor.Reload: does not start the re-verification of endpoints that keep running, and runs without interruption on objects; interleavings are the subject of `ReloadRuns`, where what listening on an address answers is arbitrary.
- Supervisor.Supervisor.Reconcile: runs without interruption; `ReloadRuns.PassServesOrSaysWhy` is the interleaved form.
- ReloadRuns.EveryRunIsSound: the step that builds endpoints cannot fail there; a failing build changes nothing, which `Supervisor.Reload` states.
- TreeMatch.TreeMatch: keys of objects are strings; the policy language allows any value as a key.
