/**
 The supervisor's endpoint list under interleaving: one reload at a time, any number
 of reconcile passes holding lists of any age, operators starting and stopping, and
 listeners dying. Each lock hold of the supervisor or of one endpoint is a step.
 */
module ReloadRuns {
  import opened Wrappers
  import opened EndpointLifecycle

  type Id = nat

  /** One endpoint entry of a configuration. */
  datatype Spec = Spec(name: string, settings: Settings)

  /** An endpoint object; its channels play no part here. */
  datatype Node = Node(spec: Spec, ep: EndpointState<()>)

  function NewNode(spec: Spec): Node {
    Node(spec, EndpointState(false, true, 0, "", "", None, (), None, None, false, None))
  }

  /** What is left of a reload after its swap: objects to retire, then replacements to bring up. */
  datatype Reload = Reload(retiring: seq<Id>, unwanted: bool, rebuilding: seq<Id>)

  /** What a reconcile pass does next with the endpoint it visits; each is a lock hold of its own. */
  datatype Stage = AskWanted | AskRunning | AskInForce | TryStart

  /** A reconcile pass: what it has yet to visit, and how far it is with the head. */
  datatype Pass = Pass(todo: seq<Id>, stage: Stage)

  /** An operator's Start or Stop that has looked its endpoint up. */
  datatype Call = Call(id: Id, starting: bool, intended: bool)

  /** `revived` is history: objects an operator's Start reached after they had left the list. */
  datatype World = World(
    nodes: map<Id, Node>,
    nextId: Id,
    inForce: seq<Id>,
    reload: Option<Reload>,
    passes: map<nat, Pass>,
    calls: map<nat, Call>,
    revived: set<Id>)

  datatype Step =
    | Swap(cfg: seq<Spec>)
    | Retire
    | Rebuild(bind: Bind)
    | PassBegin(pass: nat)
    | PassLook(pass: nat)
    | PassRetry(pass: nat, bind: Bind)
    | CallLookup(call: nat, name: string, starting: bool)
    | CallIntent(call: nat)
    | CallAct(call: nat, bind: Bind)
    | ListenerDied(id: Id, generation: nat, err: string)

  // ---------------------------------------------------------------------
  // Planning a reload
  // ---------------------------------------------------------------------

  predicate UniqueNames(specs: seq<Spec>) {
    forall i, j | 0 <= i < j < |specs| :: specs[i].name != specs[j].name
  }

  predicate Known(nodes: map<Id, Node>, list: seq<Id>) {
    forall i | 0 <= i < |list| :: list[i] in nodes
  }

  /** findEndpoint: the first of that name. */
  function Find(nodes: map<Id, Node>, list: seq<Id>, name: string): (r: Option<Id>)
    requires Known(nodes, list)
    ensures r.Some? ==> r.value in list && nodes[r.value].spec.name == name
    ensures r.None? ==> forall i | 0 <= i < |list| :: nodes[list[i]].spec.name != name
  {
    if list == [] then None
    else if nodes[list[0]].spec.name == name then Some(list[0])
    else Find(nodes, list[1..], name)
  }

  /** The predecessor an entry keeps: the same name with the same settings. */
  function Survivor(nodes: map<Id, Node>, list: seq<Id>, spec: Spec): (r: Option<Id>)
    requires Known(nodes, list)
    ensures r.Some? ==> r.value in list && nodes[r.value].spec == spec
  {
    var found := Find(nodes, list, spec.name);
    if found.Some? && nodes[found.value].spec.settings == spec.settings then found else None
  }

  /** The new list, entry by entry; the object built for entry i is number next + i. */
  function Kept(nodes: map<Id, Node>, list: seq<Id>, next: Id, cfg: seq<Spec>): (kept: seq<Id>)
    requires Known(nodes, list)
    ensures |kept| == |cfg|
    ensures forall i | 0 <= i < |cfg| ::
              kept[i] == if Survivor(nodes, list, cfg[i]).Some? then Survivor(nodes, list, cfg[i]).value else next + i
  {
    seq(|cfg|, i requires 0 <= i < |cfg| =>
      if Survivor(nodes, list, cfg[i]).Some? then Survivor(nodes, list, cfg[i]).value else next + i)
  }

  predicate Survives(nodes: map<Id, Node>, list: seq<Id>, cfg: seq<Spec>, name: string)
    requires Known(nodes, list)
  {
    exists i | 0 <= i < |cfg| :: cfg[i].name == name && Survivor(nodes, list, cfg[i]).Some?
  }

  /** The predecessors whose name did not survive, in order. */
  function Retired(nodes: map<Id, Node>, list: seq<Id>, cfg: seq<Spec>, rest: seq<Id>): (retired: seq<Id>)
    requires Known(nodes, list) && Known(nodes, rest)
    ensures forall id :: id in retired <==> id in rest && !Survives(nodes, list, cfg, nodes[id].spec.name)
    ensures Known(nodes, retired)
    decreases |rest|
  {
    if rest == [] then []
    else
      var tail := Retired(nodes, list, cfg, rest[1..]);
      if Survives(nodes, list, cfg, nodes[rest[0]].spec.name) then tail else [rest[0]] + tail
  }

  /** The objects built, in order, that replace a retired one of the same name. */
  function Replacing(
      nodes: map<Id, Node>, list: seq<Id>, next: Id, cfg: seq<Spec>, retired: seq<Id>, from: nat): (r: seq<Id>)
    requires Known(nodes, list) && Known(nodes, retired) && from <= |cfg|
    ensures forall id | id in r :: id in Kept(nodes, list, next, cfg)
    decreases |cfg| - from
  {
    if from == |cfg| then []
    else
      var tail := Replacing(nodes, list, next, cfg, retired, from + 1);
      if Survivor(nodes, list, cfg[from]).None? && Find(nodes, retired, cfg[from].name).Some? then
        assert Kept(nodes, list, next, cfg)[from] == next + from;
        [next + from] + tail
      else tail
  }

  /** A replacement is built for entry k exactly when nothing survives for it and a retired object has its name. */
  lemma {:induction false} ReplacingIff(
      nodes: map<Id, Node>, list: seq<Id>, next: Id, cfg: seq<Spec>, retired: seq<Id>, from: nat, k: nat)
    requires Known(nodes, list) && Known(nodes, retired) && from <= |cfg| && k < |cfg|
    ensures next + k in Replacing(nodes, list, next, cfg, retired, from) <==>
            k >= from && Survivor(nodes, list, cfg[k]).None? && Find(nodes, retired, cfg[k].name).Some?
    decreases |cfg| - from
  {
    hide Survivor, Find, Kept;
    if from < |cfg| {
      ReplacingIff(nodes, list, next, cfg, retired, from + 1, k);
    }
  }

  predicate IsBuilt(nodes: map<Id, Node>, list: seq<Id>, next: Id, cfg: seq<Spec>, id: Id)
    requires Known(nodes, list) && next <= id < next + |cfg|
  {
    Survivor(nodes, list, cfg[id - next]).None?
  }

  function Built(nodes: map<Id, Node>, list: seq<Id>, next: Id, cfg: seq<Spec>): (built: map<Id, Node>)
    requires Known(nodes, list)
    ensures forall id | id in built ::
              next <= id < next + |cfg| && built[id] == NewNode(cfg[id - next]) &&
                  Survivor(nodes, list, cfg[id - next]).None?
    ensures forall i | 0 <= i < |cfg| && Survivor(nodes, list, cfg[i]).None? :: next + i in built
  {
    assert forall i | 0 <= i < |cfg| && Survivor(nodes, list, cfg[i]).None? ::
        IsBuilt(nodes, list, next, cfg, next + i);
    map id: Id | next <= id < next + |cfg| && IsBuilt(nodes, list, next, cfg, id) :: NewNode(cfg[id - next])
  }

  // ---------------------------------------------------------------------
  // Steps
  // ---------------------------------------------------------------------

  function Update(w: World, id: Id, ep: EndpointState<()>): World
    requires id in w.nodes
  {
    w.(nodes := w.nodes[id := w.nodes[id].(ep := ep)])
  }

  function SwapStep(w: World, cfg: seq<Spec>): World
    requires Known(w.nodes, w.inForce)
  {
    var retired := Retired(w.nodes, w.inForce, cfg, w.inForce);
    w.(nodes := w.nodes + Built(w.nodes, w.inForce, w.nextId, cfg),
       nextId := w.nextId + |cfg|,
       inForce := Kept(w.nodes, w.inForce, w.nextId, cfg),
       reload := Some(Reload(retired, false, Replacing(w.nodes, w.inForce, w.nextId, cfg, retired, 0))))
  }

  /** setDesired(false) on the first object still to retire, then its stop. */
  function RetireStep(w: World, r: Reload): World
    requires r.retiring != [] && r.retiring[0] in w.nodes
  {
    var id := r.retiring[0];
    var ep := w.nodes[id].ep;
    if !r.unwanted then Update(w, id, ep.(wanted := false)).(reload := Some(r.(unwanted := true)))
    else Update(w, id, StopSection(ep, ()).0).(reload := Some(r.(retiring := r.retiring[1..], unwanted := false)))
  }

  function RebuildStep(w: World, r: Reload, bind: Bind): World
    requires r.rebuilding != [] ==> r.rebuilding[0] in w.nodes
  {
    if r.rebuilding == [] then w.(reload := None)
    else
      var id := r.rebuilding[0];
      Update(w, id, StartSection(w.nodes[id].ep, false, true, bind).ep)
        .(reload := Some(r.(rebuilding := r.rebuilding[1..])))
  }

  /** The act of a Start is its bind, that of a Stop its teardown. */
  function ActStep(w: World, c: Call, bind: Bind): World
    requires c.id in w.nodes
  {
    var ep := w.nodes[c.id].ep;
    if c.starting then Update(w, c.id, StartSection(ep, false, true, bind).ep).(revived := Revived(w, c.id))
    else Update(w, c.id, StopSection(ep, ()).0)
  }

  function Revived(w: World, id: Id): set<Id> {
    if id in w.inForce then w.revived else w.revived + {id}
  }

  function Visited(pass: Pass): Pass
    requires pass.todo != []
  {
    Pass(pass.todo[1..], AskWanted)
  }

  /** The reads a pass makes before it retries: is the endpoint wanted, is it down, is it still the one in force. */
  function Looked(w: World, pass: Pass): Pass
    requires Known(w.nodes, w.inForce) && Known(w.nodes, pass.todo) && pass.todo != []
  {
    var id := pass.todo[0];
    match pass.stage
    case AskWanted => if w.nodes[id].ep.wanted then pass.(stage := AskRunning) else Visited(pass)
    case AskRunning => if w.nodes[id].ep.running then Visited(pass) else pass.(stage := AskInForce)
    case AskInForce =>
      if Find(w.nodes, w.inForce, w.nodes[id].spec.name) == Some(id) then pass.(stage := TryStart) else Visited(pass)
    case TryStart => pass
  }

  /** An error always has a text. */
  predicate Nameless(step: Step) {
    match step
    case Rebuild(bind) => bind == Refused("")
    case PassRetry(_, bind) => bind == Refused("")
    case CallAct(_, bind) => bind == Refused("")
    case ListenerDied(_, _, err) => err == ""
    case _ => false
  }

  /** One atomic step; a step that is not enabled changes nothing. */
  function Apply(w: World, step: Step): World
    requires Formed(w)
  {
    if Nameless(step) then w else
    match step
    case Swap(cfg) =>
      if w.reload.None? && UniqueNames(cfg) then SwapStep(w, cfg) else w
    case Retire =>
      if w.reload.Some? && w.reload.value.retiring != [] then RetireStep(w, w.reload.value) else w
    case Rebuild(bind) =>
      if w.reload.Some? && w.reload.value.retiring == [] then RebuildStep(w, w.reload.value, bind) else w
    case PassBegin(p) =>
      if p in w.passes then w else w.(passes := w.passes[p := Pass(w.inForce, AskWanted)])
    case PassLook(p) =>
      if p !in w.passes || w.passes[p].todo == [] || w.passes[p].stage.TryStart? then w
      else w.(passes := w.passes[p := Looked(w, w.passes[p])])
    case PassRetry(p, bind) =>
      if p !in w.passes || w.passes[p].todo == [] || !w.passes[p].stage.TryStart? then w
      else
        var id := w.passes[p].todo[0];
        Update(w, id, StartSection(w.nodes[id].ep, true, false, bind).ep)
          .(passes := w.passes[p := Visited(w.passes[p])])
    case CallLookup(c, name, starting) =>
      var found := Find(w.nodes, w.inForce, name);
      if c in w.calls || found.None? then w else w.(calls := w.calls[c := Call(found.value, starting, false)])
    case CallIntent(c) =>
      if c !in w.calls || w.calls[c].intended then w
      else
        var call := w.calls[c];
        Update(w, call.id, w.nodes[call.id].ep.(wanted := call.starting))
          .(calls := w.calls[c := call.(intended := true)],
            revived := if call.starting then Revived(w, call.id) else w.revived)
    case CallAct(c, bind) =>
      if c !in w.calls || !w.calls[c].intended then w
      else ActStep(w, w.calls[c], bind).(calls := w.calls - {c})
    case ListenerDied(id, generation, err) =>
      if id !in w.nodes then w else Update(w, id, ServeFailedSection(w.nodes[id].ep, generation, err, ()).0)
  }

  function Run(w: World, steps: seq<Step>): World
    requires Formed(w)
    decreases |steps|
  {
    if steps == [] then w
    else
      StepKeepsFormed(w, steps[0]);
      Run(Apply(w, steps[0]), steps[1..])
  }

  predicate DistinctNames(nodes: map<Id, Node>, list: seq<Id>)
    requires Known(nodes, list)
  {
    forall i, j | 0 <= i < j < |list| :: nodes[list[i]].spec.name != nodes[list[j]].spec.name
  }

  /** Every reference is to an object that exists, and no two entries in force share a name. */
  predicate Formed(w: World) {
    && Known(w.nodes, w.inForce)
    && (forall id | id in w.nodes :: id < w.nextId)
    && DistinctNames(w.nodes, w.inForce)
    && (w.reload.Some? ==> Known(w.nodes, w.reload.value.retiring) && Known(w.nodes, w.reload.value.rebuilding))
    && (forall p | p in w.passes :: Known(w.nodes, w.passes[p].todo))
    && (forall c | c in w.calls :: w.calls[c].id in w.nodes)
  }

  /**
   After the swap, entry i of the list is an object with exactly the settings entry i of the
   configuration asks for.
   */
  lemma SwapFollowsTheConfiguration(w: World, cfg: seq<Spec>)
    requires Formed(w)
    ensures var w' := SwapStep(w, cfg);
            && |w'.inForce| == |cfg|
            && (forall i | 0 <= i < |cfg| :: w'.inForce[i] in w'.nodes && w'.nodes[w'.inForce[i]].spec == cfg[i])
            && (forall id | id in w.nodes :: id in w'.nodes && w'.nodes[id] == w.nodes[id])
            && (forall id | id in w'.nodes && id !in w.nodes :: w'.nodes[id] == NewNode(w'.nodes[id].spec))
  {
    hide Survivor, Retired, Replacing, Built, Kept;
    var kept := Kept(w.nodes, w.inForce, w.nextId, cfg);
    var built := Built(w.nodes, w.inForce, w.nextId, cfg);
    assert built.Keys !! w.nodes.Keys;
    forall i | 0 <= i < |cfg| ensures kept[i] in w.nodes + built && (w.nodes + built)[kept[i]].spec == cfg[i] {
      if Survivor(w.nodes, w.inForce, cfg[i]).None? {
        assert kept[i] == w.nextId + i && kept[i] in built;
      } else {
        assert kept[i] in w.inForce && kept[i] in w.nodes;
      }
    }
  }

  lemma KnownStaysKnown(nodes: map<Id, Node>, more: map<Id, Node>, list: seq<Id>)
    requires Known(nodes, list) && nodes.Keys <= more.Keys
    ensures Known(more, list)
  {
    forall i | 0 <= i < |list| ensures list[i] in more {
      assert list[i] in nodes.Keys;
    }
  }

  lemma SwapKeepsFormed(w: World, cfg: seq<Spec>)
    requires Formed(w) && UniqueNames(cfg)
    ensures Formed(SwapStep(w, cfg))
  {
    SwapFollowsTheConfiguration(w, cfg);
    SwapReferences(w, cfg);
    hide SwapStep;
    var w' := SwapStep(w, cfg);
    forall p | p in w'.passes ensures Known(w'.nodes, w'.passes[p].todo) {
      KnownStaysKnown(w.nodes, w'.nodes, w.passes[p].todo);
    }
  }

  lemma SwapReferences(w: World, cfg: seq<Spec>)
    requires Formed(w)
    ensures var w' := SwapStep(w, cfg);
            && w'.passes == w.passes && w'.calls == w.calls && w'.nextId >= w.nextId && w'.revived == w.revived
            && w.nodes.Keys <= w'.nodes.Keys
            && (forall id | id in w'.nodes :: id < w'.nextId)
            && w'.reload.Some? && Known(w.nodes, w'.reload.value.retiring) &&
                      Known(w'.nodes, w'.reload.value.rebuilding)
            && (forall id | id in w'.reload.value.rebuilding :: id in w'.inForce)
  {
    SwapFollowsTheConfiguration(w, cfg);
    hide Kept, Built, Retired, Replacing;
    var w' := SwapStep(w, cfg);
    var r := w'.reload.value.rebuilding;
    forall i | 0 <= i < |r| ensures r[i] in w'.nodes {
      assert r[i] in w'.inForce;
    }
    KnownStaysKnown(w.nodes, w'.nodes, w'.reload.value.retiring);
  }

  lemma UpdateKeepsFormed(w: World, id: Id, ep: EndpointState<()>)
    requires Formed(w) && id in w.nodes
    ensures Formed(Update(w, id, ep))
  {
    var w' := Update(w, id, ep);
    assert w'.nodes.Keys == w.nodes.Keys;
    forall p | p in w'.passes ensures Known(w'.nodes, w'.passes[p].todo) {
      KnownStaysKnown(w.nodes, w'.nodes, w.passes[p].todo);
    }
  }

  lemma ReloadKeepsFormed(w: World, r: Reload, bind: Bind)
    requires Formed(w) && w.reload == Some(r)
    ensures r.retiring != [] ==> Formed(RetireStep(w, r))
    ensures Formed(RebuildStep(w, r, bind))
  {
    if r.retiring != [] {
      var id := r.retiring[0];
      UpdateKeepsFormed(w, id, w.nodes[id].ep.(wanted := false));
      UpdateKeepsFormed(w, id, StopSection(w.nodes[id].ep, ()).0);
    }
    if r.rebuilding != [] {
      var id := r.rebuilding[0];
      UpdateKeepsFormed(w, id, StartSection(w.nodes[id].ep, false, true, bind).ep);
    }
  }

  lemma PassKeepsFormed(w: World, p: nat, bind: Bind)
    requires Formed(w)
    ensures Formed(Apply(w, PassRetry(p, bind)))
  {
    if p in w.passes && w.passes[p].todo != [] {
      var id := w.passes[p].todo[0];
      UpdateKeepsFormed(w, id, StartSection(w.nodes[id].ep, true, false, bind).ep);
    }
  }

  lemma CallKeepsFormed(w: World, c: nat, bind: Bind)
    requires Formed(w)
    ensures Formed(Apply(w, CallIntent(c))) && Formed(Apply(w, CallAct(c, bind)))
  {
    if c in w.calls {
      var id := w.calls[c].id;
      UpdateKeepsFormed(w, id, w.nodes[id].ep.(wanted := w.calls[c].starting));
      UpdateKeepsFormed(w, id, StartSection(w.nodes[id].ep, false, true, bind).ep);
      UpdateKeepsFormed(w, id, StopSection(w.nodes[id].ep, ()).0);
    }
  }

  lemma StepKeepsFormed(w: World, step: Step)
    requires Formed(w)
    ensures Formed(Apply(w, step))
  {
    hide SwapStep, RetireStep, RebuildStep, Update, ActStep, StartSection, StopSection, ServeFailedSection, Find;
    match step
    case Swap(cfg) =>
      if w.reload.None? && UniqueNames(cfg) {
        SwapKeepsFormed(w, cfg);
      }
    case Retire =>
      if w.reload.Some? && w.reload.value.retiring != [] {
        ReloadKeepsFormed(w, w.reload.value, Bound);
      }
    case Rebuild(bind) =>
      if w.reload.Some? {
        ReloadKeepsFormed(w, w.reload.value, bind);
      }
    case PassBegin(_) =>
    case PassLook(_) =>
    case PassRetry(p, bind) => PassKeepsFormed(w, p, bind);
    case CallLookup(_, _, _) =>
    case CallIntent(c) => CallKeepsFormed(w, c, Bound);
    case CallAct(c, bind) => CallKeepsFormed(w, c, bind);
    case ListenerDied(id, generation, err) =>
      if id in w.nodes {
        UpdateKeepsFormed(w, id, ServeFailedSection(w.nodes[id].ep, generation, err, ()).0);
      }
  }

  // ---------------------------------------------------------------------
  // Every predecessor is kept or retired
  // ---------------------------------------------------------------------

  ghost predicate Accounted(nodes: map<Id, Node>, list: seq<Id>, next: Id, cfg: seq<Spec>)
    requires Known(nodes, list)
  {
    forall id | id in list :: id in Kept(nodes, list, next, cfg) || id in Retired(nodes, list, cfg, list)
  }

  lemma DistinctNamesAccount(nodes: map<Id, Node>, list: seq<Id>, next: Id, cfg: seq<Spec>)
    requires Known(nodes, list) && DistinctNames(nodes, list)
    ensures Accounted(nodes, list, next, cfg)
  {
    forall id | id in list && Survives(nodes, list, cfg, nodes[id].spec.name)
      ensures id in Kept(nodes, list, next, cfg)
    {
      var i :| 0 <= i < |cfg| && cfg[i].name == nodes[id].spec.name && Survivor(nodes, list, cfg[i]).Some?;
      var found := Survivor(nodes, list, cfg[i]).value;
      assert nodes[found].spec.name == nodes[id].spec.name;
      assert Kept(nodes, list, next, cfg)[i] == id;
    }
  }

  /** What is kept is not retired. */
  lemma KeptIsNotRetired(nodes: map<Id, Node>, list: seq<Id>, next: Id, cfg: seq<Spec>, id: Id)
    requires Known(nodes, list) && id in Kept(nodes, list, next, cfg) && id < next
    ensures id in list && id !in Retired(nodes, list, cfg, list)
  {
    var i :| 0 <= i < |cfg| && Kept(nodes, list, next, cfg)[i] == id;
    assert Survivor(nodes, list, cfg[i]) == Some(id);
    assert cfg[i].name == nodes[id].spec.name;
  }

  /**
   Whatever the new configuration, every predecessor is kept or retired: this holds
   of a list exactly when no two of its objects share a name. With a shared name,
   keeping the first leaves the second running, in no list and never retired.
   */
  lemma AccountedIffDistinctNames(nodes: map<Id, Node>, list: seq<Id>, next: Id)
    requires Known(nodes, list) && (forall i, j | 0 <= i < j < |list| :: list[i] != list[j])
    requires forall i | 0 <= i < |list| :: list[i] < next
    ensures (forall cfg :: Accounted(nodes, list, next, cfg)) <==> DistinctNames(nodes, list)
  {
    if DistinctNames(nodes, list) {
      forall cfg ensures Accounted(nodes, list, next, cfg) {
        DistinctNamesAccount(nodes, list, next, cfg);
      }
    } else {
      var i, j :| 0 <= i < j < |list| && nodes[list[i]].spec.name == nodes[list[j]].spec.name;
      var first := Find(nodes, list, nodes[list[i]].spec.name).value;
      var other := if list[i] == first then list[j] else list[i];
      var cfg := [nodes[first].spec];
      assert Survivor(nodes, list, cfg[0]) == Some(first);
      assert Survives(nodes, list, cfg, nodes[other].spec.name);
      assert other !in Kept(nodes, list, next, cfg);
      assert !Accounted(nodes, list, next, cfg);
    }
  }

  ghost predicate Matches(w: World, cfg: seq<Spec>)
    requires Formed(w)
  {
    |w.inForce| == |cfg| && forall i | 0 <= i < |cfg| :: w.nodes[w.inForce[i]].spec == cfg[i]
  }

  lemma FindAt(nodes: map<Id, Node>, list: seq<Id>, i: nat)
    requires Known(nodes, list) && DistinctNames(nodes, list) && i < |list|
    ensures Find(nodes, list, nodes[list[i]].spec.name) == Some(list[i])
  {
    var found := Find(nodes, list, nodes[list[i]].spec.name);
    var j :| 0 <= j < |list| && list[j] == found.value;
  }

  lemma {:induction false} NoneRetired(nodes: map<Id, Node>, list: seq<Id>, cfg: seq<Spec>, rest: seq<Id>)
    requires Known(nodes, list) && Known(nodes, rest)
    requires forall i | 0 <= i < |rest| :: Survives(nodes, list, cfg, nodes[rest[i]].spec.name)
    ensures Retired(nodes, list, cfg, rest) == []
    decreases |rest|
  {
    if rest != [] {
      assert Survives(nodes, list, cfg, nodes[rest[0]].spec.name);
      NoneRetired(nodes, list, cfg, rest[1..]);
    }
  }

  lemma NoneBuilt(nodes: map<Id, Node>, list: seq<Id>, next: Id, cfg: seq<Spec>)
    requires Known(nodes, list) && forall i | 0 <= i < |cfg| :: Survivor(nodes, list, cfg[i]).Some?
    ensures Built(nodes, list, next, cfg) == map[]
  {
    hide Survivor, Find;
    var built := Built(nodes, list, next, cfg);
    assert built.Keys == {};
  }

  /** Reloading the configuration already in force keeps every object, retires none and rebuilds none. */
  lemma SecondReloadKeepsEverything(w: World, cfg: seq<Spec>)
    requires Formed(w) && Matches(w, cfg)
    ensures var w' := SwapStep(w, cfg);
            w'.inForce == w.inForce && w'.nodes == w.nodes && w'.reload == Some(Reload([], false, []))
  {
    var kept := Kept(w.nodes, w.inForce, w.nextId, cfg);
    forall i | 0 <= i < |cfg| ensures Survivor(w.nodes, w.inForce, cfg[i]) == Some(w.inForce[i]) {
      FindAt(w.nodes, w.inForce, i);
    }
    assert kept == w.inForce;
    forall i | 0 <= i < |w.inForce| ensures Survives(w.nodes, w.inForce, cfg, w.nodes[w.inForce[i]].spec.name) {
      assert cfg[i].name == w.nodes[w.inForce[i]].spec.name;
    }
    hide Survivor, Find, Survives, Retired, Kept, Built, Replacing;
    NoneRetired(w.nodes, w.inForce, cfg, w.inForce);
    NoneBuilt(w.nodes, w.inForce, w.nextId, cfg);
    NothingToReplace(w.nodes, w.inForce, w.nextId, cfg, 0);
  }

  lemma {:induction false} NothingToReplace(nodes: map<Id, Node>, list: seq<Id>, next: Id, cfg: seq<Spec>, from: nat)
    requires Known(nodes, list) && from <= |cfg|
    requires forall i | 0 <= i < |cfg| :: Survivor(nodes, list, cfg[i]).Some?
    ensures Replacing(nodes, list, next, cfg, [], from) == []
    decreases |cfg| - from
  {
    if from < |cfg| {
      NothingToReplace(nodes, list, next, cfg, from + 1);
    }
  }

  // ---------------------------------------------------------------------
  // What is retired stays down
  // ---------------------------------------------------------------------

  ghost predicate Down(w: World, id: Id) {
    id in w.nodes && !w.nodes[id].ep.wanted && !w.nodes[id].ep.running
  }

  function Retiring(w: World): seq<Id> {
    if w.reload.Some? then w.reload.value.retiring else []
  }

  /**
   An object out of the list is unwanted and not running, unless a reload still has it to
   retire or an operator's Start reached it too late.
   */
  ghost predicate RetiredStayDown(w: World)
    requires Formed(w)
  {
    forall id | id in w.nodes :: id in w.inForce || id in w.revived || id in Retiring(w) || Down(w, id)
  }

  ghost predicate ReloadInHand(w: World)
    requires Formed(w)
  {
    w.reload.Some? ==>
      var r := w.reload.value;
      && (forall id | id in r.retiring :: id !in w.inForce)
      && (forall id | id in r.rebuilding :: id in w.inForce)
      && (r.unwanted && r.retiring != [] ==> r.retiring[0] in w.revived || !w.nodes[r.retiring[0]].ep.wanted)
  }

  ghost predicate Sound(w: World) {
    Formed(w) && RetiredStayDown(w) && ReloadInHand(w)
  }

  lemma BuiltIsInForce(w: World, cfg: seq<Spec>, id: Id)
    requires Formed(w) && id in Built(w.nodes, w.inForce, w.nextId, cfg)
    ensures id in Kept(w.nodes, w.inForce, w.nextId, cfg)
  {
    hide Survivor, Built, Kept, Find, NewNode;
    var i := id - w.nextId;
    var kept := Kept(w.nodes, w.inForce, w.nextId, cfg);
    assert kept[i] == w.nextId + i;
  }

  lemma SwapRetiresTheRest(w: World, cfg: seq<Spec>)
    requires Sound(w) && w.reload.None? && UniqueNames(cfg) && Formed(SwapStep(w, cfg))
    ensures RetiredStayDown(SwapStep(w, cfg))
  {
    var w' := SwapStep(w, cfg);
    SwapReferences(w, cfg);
    SwapFollowsTheConfiguration(w, cfg);
    DistinctNamesAccount(w.nodes, w.inForce, w.nextId, cfg);
    hide Kept, Replacing, Built, Retired, Survivor, Find;
    forall id | id in w'.nodes ensures id in w'.inForce || id in w'.revived || id in Retiring(w') || Down(w', id) {
      if id !in w.nodes {
        BuiltIsInForce(w, cfg, id);
      }
    }
  }

  lemma SwapKeepsSound(w: World, cfg: seq<Spec>)
    requires Sound(w) && w.reload.None? && UniqueNames(cfg)
    ensures Sound(SwapStep(w, cfg))
  {
    SwapKeepsFormed(w, cfg);
    SwapRetiresTheRest(w, cfg);
    SwapReferences(w, cfg);
    hide Kept, Replacing, Built, Retired, Survivor, Find;
    var w' := SwapStep(w, cfg);
    forall id | id in w'.reload.value.retiring ensures id !in w'.inForce {
      if id in w'.inForce {
        KeptIsNotRetired(w.nodes, w.inForce, w.nextId, cfg, id);
      }
    }
  }

  lemma RetireKeepsSound(w: World)
    requires Sound(w)
    ensures Sound(Apply(w, Retire))
  {
    StepKeepsFormed(w, Retire);
    if w.reload.Some? && w.reload.value.retiring != [] {
      var r := w.reload.value;
      assert forall id | id in r.retiring :: id == r.retiring[0] || id in r.retiring[1..];
    }
  }

  /** Changing one object cannot break what holds of the others, nor of itself if it is accounted for or stays down. */
  lemma UpdateKeepsSound(w: World, id: Id, ep: EndpointState<()>)
    requires Sound(w) && id in w.nodes
    requires id in w.inForce || id in w.revived ||
             ((w.nodes[id].ep.wanted || !ep.wanted) && (w.nodes[id].ep.wanted || w.nodes[id].ep.running || !ep.running))
    ensures Sound(Update(w, id, ep))
  {
    UpdateKeepsFormed(w, id, ep);
  }

  lemma CallKeepsSound(w: World, step: Step)
    requires Sound(w) && (step.CallIntent? || step.CallAct?)
    ensures Sound(Apply(w, step))
  {
    StepKeepsFormed(w, step);
    hide StartSection, StopSection, Find;
    if step.call in w.calls {
      var call := w.calls[step.call];
      if step.CallIntent? {
        IntentKeepsSound(w, call);
      } else {
        ActKeepsSound(w, call, step.bind);
      }
    }
  }

  lemma RevivingKeepsSound(w: World, id: Id)
    requires Sound(w)
    ensures Sound(w.(revived := Revived(w, id)))
  {
  }

  lemma IntentKeepsSound(w: World, call: Call)
    requires Sound(w) && call.id in w.nodes
    ensures var w1 := w.(revived := if call.starting then Revived(w, call.id) else w.revived);
            Sound(Update(w1, call.id, w.nodes[call.id].ep.(wanted := call.starting)))
  {
    RevivingKeepsSound(w, call.id);
    var w1 := w.(revived := if call.starting then Revived(w, call.id) else w.revived);
    UpdateKeepsSound(w1, call.id, w.nodes[call.id].ep.(wanted := call.starting));
  }

  lemma ActKeepsSound(w: World, call: Call, bind: Bind)
    requires Sound(w) && call.id in w.nodes
    ensures Sound(ActStep(w, call, bind))
  {
    RevivingKeepsSound(w, call.id);
    var ep := w.nodes[call.id].ep;
    if call.starting {
      UpdateKeepsSound(w.(revived := Revived(w, call.id)), call.id, StartSection(ep, false, true, bind).ep);
    } else {
      UpdateKeepsSound(w, call.id, StopSection(ep, ()).0);
    }
  }

  lemma RebuildKeepsSound(w: World, bind: Bind)
    requires Sound(w)
    ensures Sound(Apply(w, Rebuild(bind)))
  {
    StepKeepsFormed(w, Rebuild(bind));
    if w.reload.Some? && w.reload.value.rebuilding != [] {
      var id := w.reload.value.rebuilding[0];
      UpdateKeepsSound(w, id, StartSection(w.nodes[id].ep, false, true, bind).ep);
    }
  }

  lemma PassKeepsSound(w: World, p: nat, bind: Bind)
    requires Sound(w)
    ensures Sound(Apply(w, PassRetry(p, bind)))
  {
    StepKeepsFormed(w, PassRetry(p, bind));
    if p in w.passes && w.passes[p].todo != [] {
      var id := w.passes[p].todo[0];
      UpdateKeepsSound(w, id, StartSection(w.nodes[id].ep, true, false, bind).ep);
    }
  }

  lemma OthersKeepSound(w: World, step: Step)
    requires Sound(w) && !step.Swap? && !step.Retire?
    ensures Sound(Apply(w, step))
  {
    StepKeepsFormed(w, step);
    hide Find;
    match step
    case Rebuild(bind) => RebuildKeepsSound(w, bind);
    case PassBegin(_) =>
    case PassLook(_) =>
    case PassRetry(p, bind) => PassKeepsSound(w, p, bind);
    case CallLookup(_, _, _) =>
    case CallIntent(_) => CallKeepsSound(w, step);
    case CallAct(_, _) => CallKeepsSound(w, step);
    case ListenerDied(id, generation, err) =>
      if id in w.nodes {
        UpdateKeepsSound(w, id, ServeFailedSection(w.nodes[id].ep, generation, err, ()).0);
      }
  }

  lemma StepKeepsSound(w: World, step: Step)
    requires Sound(w)
    ensures Sound(Apply(w, step))
  {
    match step
    case Swap(cfg) =>
      if w.reload.None? && UniqueNames(cfg) {
        SwapKeepsSound(w, cfg);
      }
    case Retire => RetireKeepsSound(w);
    case _ => OthersKeepSound(w, step);
  }

  function Empty(): World {
    World.World(map[], 0, [], None, map[], map[], {})
  }

  /** No object vanishes, and none changes its name or settings. */
  ghost predicate SameObjects(w: World, w': World) {
    forall id | id in w.nodes :: id in w'.nodes && w'.nodes[id].spec == w.nodes[id].spec
  }

  lemma StepKeepsObjects(w: World, step: Step)
    requires Formed(w)
    ensures SameObjects(w, Apply(w, step))
  {
    hide Find;
    if step.Swap? && w.reload.None? && UniqueNames(step.cfg) {
      SwapFollowsTheConfiguration(w, step.cfg);
      hide SwapStep;
    }
  }

  /** In every interleaving, whatever lists the passes hold. */
  lemma {:induction false} EveryRunIsSound(w: World, steps: seq<Step>)
    requires Sound(w)
    ensures Sound(Run(w, steps)) && SameObjects(w, Run(w, steps))
    decreases |steps|
  {
    if steps != [] {
      StepKeepsSound(w, steps[0]);
      StepKeepsObjects(w, steps[0]);
      EveryRunIsSound(Apply(w, steps[0]), steps[1..]);
    }
  }

  /**
   Once no reload is in hand, whatever left the list is unwanted and down, unless an
   operator's Start came too late.
   */
  lemma RetiredObjectsAreDown(steps: seq<Step>, id: Id)
    ensures var w := Run(Empty(), steps);
            id in w.nodes && id !in w.inForce && id !in Retiring(w) ==> Down(w, id) || id in w.revived
  {
    EveryRunIsSound(Empty(), steps);
  }

  /**
   The steps that wake an unwanted object that is down: an operator's Start reaching it, or a
   reload rebuilding it.
   */
  predicate Wakes(w: World, step: Step, id: Id) {
    match step
    case CallIntent(c) => c in w.calls && w.calls[c].id == id && w.calls[c].starting && !w.calls[c].intended
    case CallAct(c, bind) => c in w.calls && w.calls[c].id == id && w.calls[c].starting && w.calls[c].intended &&
        bind == Bound
    case Rebuild(bind) =>
      w.reload.Some? && w.reload.value.retiring == [] && w.reload.value.rebuilding != [] &&
          w.reload.value.rebuilding[0] == id && bind == Bound
    case _ => false
  }

  /** No other step does: no reconcile pass, whatever list it holds, and no listener that dies late. */
  lemma WokenIff(w: World, step: Step, id: Id)
    requires Formed(w) && Down(w, id)
    ensures Down(Apply(w, step), id) <==> !Wakes(w, step, id)
  {
    hide Find, Kept, Retired, Replacing;
    match step
    case Swap(cfg) =>
      if w.reload.None? && UniqueNames(cfg) {
        SwapFollowsTheConfiguration(w, cfg);
      }
    case Retire =>
    case Rebuild(_) =>
    case PassBegin(_) =>
    case PassLook(_) =>
    case PassRetry(_, _) =>
    case CallLookup(_, _, _) =>
    case CallIntent(_) =>
    case CallAct(_, _) =>
    case ListenerDied(_, _, _) =>
  }

  /** An operator's Start that has looked this object up is still in flight. */
  ghost predicate Recalled(w: World, id: Id) {
    exists c | c in w.calls :: w.calls[c].id == id && w.calls[c].starting
  }

  /** Retired, and nobody on the way to start it. */
  ghost predicate Gone(w: World, id: Id) {
    Sound(w) && Down(w, id) && id !in w.inForce && !Recalled(w, id)
  }

  lemma NeverBackInForce(w: World, step: Step, id: Id)
    requires Formed(w) && id in w.nodes && id !in w.inForce
    ensures id !in Apply(w, step).inForce
  {
    hide Find, Kept, Retired, Replacing, Built;
    if step.Swap? && w.reload.None? && UniqueNames(step.cfg) {
      var kept := Kept(w.nodes, w.inForce, w.nextId, step.cfg);
      if id in kept {
        KeptIsNotRetired(w.nodes, w.inForce, w.nextId, step.cfg, id);
      }
    }
  }

  lemma NobodyRecalls(w: World, step: Step, id: Id)
    requires Formed(w) && id in w.nodes && id !in w.inForce && !Recalled(w, id)
    ensures !Recalled(Apply(w, step), id)
  {
    hide Kept, Retired, Replacing, Built, StartSection, StopSection, ServeFailedSection;
    var w' := Apply(w, step);
    forall c | c in w'.calls ensures w'.calls[c].id != id || !w'.calls[c].starting {
      if c in w.calls {
        assert w.calls[c].id != id || !w.calls[c].starting;
      }
    }
  }

  lemma StepKeepsGone(w: World, step: Step, id: Id)
    requires Gone(w, id)
    ensures Gone(Apply(w, step), id)
  {
    StepKeepsSound(w, step);
    NeverBackInForce(w, step, id);
    NobodyRecalls(w, step, id);
    WokenIff(w, step, id);
    hide Apply;
  }

  lemma {:induction false} GoneStaysGone(w: World, steps: seq<Step>, id: Id)
    requires Gone(w, id)
    ensures Down(Run(w, steps), id)
    decreases |steps|
  {
    if steps != [] {
      StepKeepsGone(w, steps[0], id);
      GoneStaysGone(Apply(w, steps[0]), steps[1..], id);
    }
  }

  lemma RecalledComesBack(w: World, id: Id)
    requires Sound(w) && Down(w, id) && Recalled(w, id)
    ensures exists steps :: !Down(Run(w, steps), id)
  {
    var c :| c in w.calls && w.calls[c].id == id && w.calls[c].starting;
    var step := if w.calls[c].intended then CallAct(c, Bound) else CallIntent(c);
    WokenIff(w, step, id);
    hide Apply;
    RunOne(w, [step]);
    assert [step][1..] == [];
    assert !Down(Run(w, [step]), id);
  }

  /**
   A retired object that is down stays down in every continuation exactly when, at
   that moment, no operator's Start that has looked it up is still in flight.
   */
  lemma RetiredForGoodIff(w: World, id: Id)
    requires Sound(w) && Down(w, id) && id !in w.inForce
    ensures (forall steps :: Down(Run(w, steps), id)) <==> !Recalled(w, id)
  {
    if Recalled(w, id) {
      RecalledComesBack(w, id);
    } else {
      forall steps ensures Down(Run(w, steps), id) {
        GoneStaysGone(w, steps, id);
      }
    }
  }

  // ---------------------------------------------------------------------
  // What the steps of a pass, of an operator and of a reload do, each in full
  // ---------------------------------------------------------------------

  /** A pass begins with the whole list, in its order, and touches nothing. */
  lemma PassesReadTheList(w: World, p: nat)
    requires Formed(w) && p !in w.passes
    ensures var w' := Apply(w, PassBegin(p));
            JustBegun(w', p) && w'.passes[p].todo == w.inForce && w'.nodes == w.nodes && w'.inForce == w.inForce
  {
  }

  /** The three questions: wanted, not running, still the endpoint in force under its name. A no passes it over. */
  lemma LooksAsk(w: World, p: nat)
    requires Formed(w) && p in w.passes && w.passes[p].todo != [] && !w.passes[p].stage.TryStart?
    ensures var id, todo, w' := w.passes[p].todo[0], w.passes[p].todo, Apply(w, PassLook(p));
            && w'.nodes == w.nodes && w'.inForce == w.inForce && p in w'.passes
            && w'.passes[p] == match w.passes[p].stage
                               case AskWanted =>
                                 if w.nodes[id].ep.wanted then Pass(todo, AskRunning) else Pass(todo[1..], AskWanted)
                               case AskRunning =>
                                 if w.nodes[id].ep.running then Pass(todo[1..], AskWanted) else Pass(todo, AskInForce)
                               case _ =>
                                 if id in w.inForce then Pass(todo, TryStart) else Pass(todo[1..], AskWanted)
  {
    var id := w.passes[p].todo[0];
    if id in w.inForce {
      var i :| 0 <= i < |w.inForce| && w.inForce[i] == id;
      FindAt(w.nodes, w.inForce, i);
    }
  }

  /** The try acts on a wanted endpoint that is down, and leaves any other alone; either way the pass moves on. */
  lemma TriesStart(w: World, p: nat, bind: Bind)
    requires Formed(w) && p in w.passes && w.passes[p].todo != [] && w.passes[p].stage.TryStart? && bind != Refused("")
    ensures var id, w' := w.passes[p].todo[0], Apply(w, PassRetry(p, bind));
            var ep := w.nodes[id].ep;
            && p in w'.passes && w'.passes[p] == Pass(w.passes[p].todo[1..], AskWanted) && id in w'.nodes
            && w'.nodes[id].ep ==
               (if ep.running || !ep.wanted then ep
                else if bind.Bound? then
                  ep.(running := true, generation := ep.generation + 1, bindErr := "", serveErr := "")
                else ep.(bindErr := bind.err))
            && (forall other | other in w.nodes && other != id ::
                      other in w'.nodes && w'.nodes[other] == w.nodes[other])
  {
    hide Find;
  }

  /**
   An operator's call acts on the endpoint in force under that name; without one it is
   refused and changes nothing.
   */
  lemma CallsLookUp(w: World, c: nat, name: string, starting: bool)
    requires Formed(w) && c !in w.calls
    ensures var w' := Apply(w, CallLookup(c, name, starting));
            && w'.nodes == w.nodes && w'.inForce == w.inForce
            && (c in w'.calls <==> exists i :: 0 <= i < |w.inForce| && w.nodes[w.inForce[i]].spec.name == name)
            && (c in w'.calls ==>
                  w'.calls[c] == Call(w'.calls[c].id, starting, false) &&
                  w'.calls[c].id in w.inForce && w.nodes[w'.calls[c].id].spec.name == name)
  {
  }

  /** A listener that dies takes down the endpoint it served, with the reason and the intent as it was, and no other. */
  lemma DyingListenersSayWhy(w: World, id: Id, generation: nat, err: string)
    requires Formed(w) && id in w.nodes && err != ""
    ensures var ep, w' := w.nodes[id].ep, Apply(w, ListenerDied(id, generation, err));
            && (!ep.running || ep.generation != generation ==> w'.nodes == w.nodes)
            && (ep.running && ep.generation == generation ==>
                  && id in w'.nodes && !w'.nodes[id].ep.running && w'.nodes[id].ep.serveErr == err
                  && w'.nodes[id].ep.wanted == ep.wanted && w'.nodes[id].ep.generation == generation + 1)
            && (forall other | other in w.nodes && other != id ::
                      other in w'.nodes && w'.nodes[other] == w.nodes[other])
            && w'.inForce == w.inForce && w'.reload == w.reload && w'.passes == w.passes && w'.calls == w.calls
  {
  }

  /** First the intent, then the bind or the teardown. */
  lemma CallsDoWhatTheySay(w: World, c: nat, bind: Bind)
    requires Formed(w) && c in w.calls && bind != Refused("")
    ensures var call := w.calls[c];
            var w' := Apply(w, if call.intended then CallAct(c, bind) else CallIntent(c));
            var ep := w.nodes[call.id].ep;
            && call.id in w'.nodes
            && (!call.intended ==>
                  c in w'.calls && w'.calls[c] == call.(intended := true) &&
                  w'.nodes[call.id].ep == ep.(wanted := call.starting))
            && (call.intended ==>
                  && c !in w'.calls && w'.nodes[call.id].ep.wanted == ep.wanted
                  && (w'.nodes[call.id].ep.running <==> call.starting && (ep.running || bind.Bound?))
                  && (call.starting && !ep.running && bind.Refused? ==> w'.nodes[call.id].ep.bindErr == bind.err))
  {
    hide Find;
  }

  /**
   Retiring takes the first of the list, its intent and then its listener; rebuilding starts
   the first of the other.
   */
  lemma ReloadsRetireThenRebuild(w: World, bind: Bind)
    requires Formed(w) && w.reload.Some? && bind != Refused("")
    ensures var r := w.reload.value;
            if r.retiring != [] then
              var id, w' := r.retiring[0], Apply(w, Retire);
              && Apply(w, Rebuild(bind)) == w && id in w'.nodes
              && (!r.unwanted ==> w'.reload == Some(r.(unwanted := true)) && !w'.nodes[id].ep.wanted)
              && (r.unwanted ==>
                    w'.reload == Some(Reload(r.retiring[1..], false, r.rebuilding)) && !w'.nodes[id].ep.running)
            else if r.rebuilding != [] then
              var id, w' := r.rebuilding[0], Apply(w, Rebuild(bind));
              && id in w'.nodes && w'.reload == Some(r.(rebuilding := r.rebuilding[1..]))
              && (bind.Bound? ==> w'.nodes[id].ep.running)
              && (!w.nodes[id].ep.running && bind.Refused? ==> w'.nodes[id].ep.bindErr == bind.err)
            else Apply(w, Rebuild(bind)) == w.(reload := None)
  {
    hide Find;
  }

  // ---------------------------------------------------------------------
  // What a reconcile pass does for every endpoint
  // ---------------------------------------------------------------------

  /** The endpoint serves or says why not; an error of a listener that died is an answer only if `deaths` says so. */
  predicate Answers(ep: EndpointState<()>, deaths: bool) {
    ep.running || ep.bindErr != "" || (deaths && ep.serveErr != "")
  }

  /** The pass still has the endpoint to visit, or the endpoint answers. */
  ghost predicate Attended(w: World, p: nat, id: Id, deaths: bool) {
    && p in w.passes && id in w.nodes && w.nodes[id].ep.wanted
    && (id in w.passes[p].todo || Answers(w.nodes[id].ep, deaths))
  }

  /** A lock hold of an operator's Stop on this object. */
  predicate StopsIt(w: World, step: Step, id: Id) {
    (step.CallIntent? || step.CallAct?) && step.call in w.calls && w.calls[step.call].id == id &&
        !w.calls[step.call].starting
  }

  /** Its listener dies. */
  predicate KillsIt(step: Step, id: Id) {
    step.ListenerDied? && step.id == id
  }

  /** No operator stops this object during the run and, unless `deaths` allows it, its listener does not die. */
  ghost predicate Undisturbed(w: World, steps: seq<Step>, id: Id, deaths: bool)
    requires Formed(w)
    decreases |steps|
  {
    if steps == [] then true
    else
      StepKeepsFormed(w, steps[0]);
      !StopsIt(w, steps[0], id) && (deaths || !KillsIt(steps[0], id)) &&
          Undisturbed(Apply(w, steps[0]), steps[1..], id, deaths)
  }

  lemma LookKeepsAttended(w: World, q: nat, p: nat, id: Id, deaths: bool)
    requires Sound(w) && Attended(w, p, id, deaths) && id in w.inForce
    ensures Attended(Apply(w, PassLook(q)), p, id, deaths)
  {
    var i :| 0 <= i < |w.inForce| && w.inForce[i] == id;
    FindAt(w.nodes, w.inForce, i);
  }

  lemma RetryKeepsAttended(w: World, q: nat, bind: Bind, p: nat, id: Id, deaths: bool)
    requires Sound(w) && Attended(w, p, id, deaths)
    ensures Attended(Apply(w, PassRetry(q, bind)), p, id, deaths)
  {
    hide Find;
  }

  lemma CallKeepsAttended(w: World, step: Step, p: nat, id: Id, deaths: bool)
    requires Sound(w) && Attended(w, p, id, deaths) && (step.CallIntent? || step.CallAct?) && !StopsIt(w, step, id)
    ensures Attended(Apply(w, step), p, id, deaths)
  {
    hide Find;
  }

  lemma SwapKeepsAttended(w: World, cfg: seq<Spec>, p: nat, id: Id, deaths: bool)
    requires Sound(w) && Attended(w, p, id, deaths)
    ensures Attended(Apply(w, Swap(cfg)), p, id, deaths)
  {
    hide Find, Kept, Retired, Replacing, Built;
    if w.reload.None? && UniqueNames(cfg) {
      SwapFollowsTheConfiguration(w, cfg);
      SwapReferences(w, cfg);
      hide SwapStep;
    }
  }

  lemma StepKeepsAttended(w: World, step: Step, p: nat, id: Id, deaths: bool)
    requires Sound(w) && Attended(w, p, id, deaths) && id in w.inForce
    requires !StopsIt(w, step, id) && (deaths || !KillsIt(step, id))
    ensures Attended(Apply(w, step), p, id, deaths)
  {
    hide Find, SwapStep;
    match step
    case Swap(cfg) => SwapKeepsAttended(w, cfg, p, id, deaths);
    case Retire =>
    case Rebuild(_) =>
    case PassBegin(_) =>
    case PassLook(q) => LookKeepsAttended(w, q, p, id, deaths);
    case PassRetry(q, bind) => RetryKeepsAttended(w, q, bind, p, id, deaths);
    case CallLookup(_, _, _) =>
    case CallIntent(_) => CallKeepsAttended(w, step, p, id, deaths);
    case CallAct(_, _) => CallKeepsAttended(w, step, p, id, deaths);
    case ListenerDied(_, _, _) =>
  }

  lemma {:induction false} InForceBefore(w: World, steps: seq<Step>, id: Id)
    requires Formed(w) && id in w.nodes && id in Run(w, steps).inForce
    ensures id in w.inForce
    decreases |steps|
  {
    if steps != [] {
      StepKeepsFormed(w, steps[0]);
      StepKeepsObjects(w, steps[0]);
      InForceBefore(Apply(w, steps[0]), steps[1..], id);
      if id !in w.inForce {
        NeverBackInForce(w, steps[0], id);
      }
    }
  }

  lemma {:induction false} RunKeepsAttended(w: World, steps: seq<Step>, p: nat, id: Id, deaths: bool)
    requires Sound(w) && Attended(w, p, id, deaths) && id in Run(w, steps).inForce && Undisturbed(w, steps, id, deaths)
    ensures Attended(Run(w, steps), p, id, deaths)
    decreases |steps|
  {
    if steps != [] {
      InForceBefore(w, steps, id);
      StepKeepsSound(w, steps[0]);
      StepKeepsAttended(w, steps[0], p, id, deaths);
      hide Apply, Attended;
      RunKeepsAttended(Apply(w, steps[0]), steps[1..], p, id, deaths);
    }
  }

  /** A pass has just read the list. */
  ghost predicate JustBegun(w: World, p: nat) {
    p in w.passes && w.passes[p] == Pass(w.inForce, AskWanted)
  }

  ghost predicate Done(w: World, p: nat) {
    p in w.passes && w.passes[p].todo == []
  }

  /**
   An endpoint that is wanted and in force when a pass begins, that stays in force, that
   no operator stops and whose listener does not die meanwhile, runs when the pass is
   done or carries the bind error that explains why not. Operators starting, reloads,
   other passes and every other dying listener may interleave with the reads of the pass.
   */
  lemma PassServesOrSaysWhy(w: World, p: nat, steps: seq<Step>, id: Id)
    requires Sound(w) && JustBegun(w, p) && id in w.inForce && w.nodes[id].ep.wanted
    requires Undisturbed(w, steps, id, false)
    ensures var w' := Run(w, steps);
            Done(w', p) && id in w'.inForce ==>
              id in w'.nodes && w'.nodes[id].ep.wanted && (w'.nodes[id].ep.running || w'.nodes[id].ep.bindErr != "")
  {
    hide Run, Undisturbed;
    if id in Run(w, steps).inForce {
      RunKeepsAttended(w, steps, p, id, false);
    }
  }

  /** If its listener may die during the pass, it is still not silently stopped. */
  lemma NoSilentStop(w: World, p: nat, steps: seq<Step>, id: Id, failOpen: bool)
    requires Sound(w) && JustBegun(w, p) && id in w.inForce && w.nodes[id].ep.wanted
    requires Undisturbed(w, steps, id, true)
    ensures var w' := Run(w, steps);
            Done(w', p) && id in w'.inForce ==>
              id in w'.nodes && w'.nodes[id].ep.wanted && Snapshot(w'.nodes[id].ep, failOpen) != Stopped
  {
    hide Run, Undisturbed;
    if id in Run(w, steps).inForce {
      RunKeepsAttended(w, steps, p, id, true);
    }
  }

  /** The step is this pass trying to start this object. */
  predicate Tries(w: World, step: Step, p: nat, id: Id) {
    && step.PassRetry? && step.pass == p && !Nameless(step)
    && p in w.passes && w.passes[p].stage.TryStart? && w.passes[p].todo != [] && w.passes[p].todo[0] == id
  }

  /** At some moment of the run the object was running, or the pass tried to start it. */
  ghost predicate Reached(w: World, steps: seq<Step>, p: nat, id: Id)
    requires Formed(w)
    decreases |steps|
  {
    (id in w.nodes && w.nodes[id].ep.running) ||
    (steps != [] &&
     (Tries(w, steps[0], p, id) || (StepKeepsFormed(w, steps[0]); Reached(Apply(w, steps[0]), steps[1..], p, id))))
  }

  lemma PassedOverOnlyIfReached(w: World, step: Step, p: nat, id: Id)
    requires Sound(w) && id in w.inForce && w.nodes[id].ep.wanted && !w.nodes[id].ep.running
    requires p in w.passes && id in w.passes[p].todo && !StopsIt(w, step, id)
    ensures var w' := Apply(w, step);
            && p in w'.passes && id in w'.nodes && w'.nodes[id].ep.wanted
            && (id in w'.passes[p].todo || Tries(w, step, p, id))
  {
    var i :| 0 <= i < |w.inForce| && w.inForce[i] == id;
    FindAt(w.nodes, w.inForce, i);
    StepKeepsAttended(w, step, p, id, true);
    hide Find, SwapStep;
    if step.Swap? && w.reload.None? && UniqueNames(step.cfg) {
      SwapReferences(w, step.cfg);
    }
  }

  /**
   Whatever its error fields held before and whatever dies meanwhile: no pass ends
   without having found such an endpoint running or having tried to start it.
   */
  lemma {:induction false} PassReachesEveryEndpoint(w: World, steps: seq<Step>, p: nat, id: Id)
    requires Sound(w) && p in w.passes && id in w.nodes && w.nodes[id].ep.wanted && id in w.passes[p].todo
    requires Undisturbed(w, steps, id, true)
    ensures Done(Run(w, steps), p) && id in Run(w, steps).inForce ==> Reached(w, steps, p, id)
    decreases |steps|
  {
    if steps != [] && id in Run(w, steps).inForce && !w.nodes[id].ep.running && !Tries(w, steps[0], p, id) {
      InForceBefore(w, steps, id);
      StepKeepsSound(w, steps[0]);
      PassedOverOnlyIfReached(w, steps[0], p, id);
      hide Apply, Tries;
      PassReachesEveryEndpoint(Apply(w, steps[0]), steps[1..], p, id);
    }
  }

  function StageLeft(stage: Stage): nat {
    match stage
    case AskWanted => 4
    case AskRunning => 3
    case AskInForce => 2
    case TryStart => 1
  }

  /** How many lock holds a pass has left at most. */
  function PassLeft(pass: Pass): (left: nat)
    ensures left <= 4 * |pass.todo| && (left == 0 <==> pass.todo == [])
  {
    if pass.todo == [] then 0 else 4 * (|pass.todo| - 1) + StageLeft(pass.stage)
  }

  predicate OfPass(step: Step, p: nat) {
    (step.PassLook? || step.PassRetry?) && step.pass == p
  }

  /** The lock hold a pass takes next. */
  function NextOf(w: World, p: nat, bind: Bind): Step
    requires p in w.passes
  {
    if w.passes[p].stage.TryStart? then PassRetry(p, bind) else PassLook(p)
  }

  /**
   A pass that is not done can always take its next lock hold, and is then closer to its
   end, however the endpoint is; no step of anybody else moves it. So it ends after at
   most four lock holds of its own an endpoint.
   */
  lemma PassGoesOn(w: World, p: nat, bind: Bind, other: Step)
    requires Formed(w) && p in w.passes && bind != Refused("") && !OfPass(other, p)
    ensures w.passes[p].todo != [] ==>
              var w' := Apply(w, NextOf(w, p, bind));
              p in w'.passes && PassLeft(w'.passes[p]) < PassLeft(w.passes[p])
    ensures p in Apply(w, other).passes && Apply(w, other).passes[p] == w.passes[p]
  {
    hide Find, Kept, Retired, Replacing, Built;
  }

  /** Entries whose name and settings are unchanged keep their object through the swap, untouched. */
  lemma UnchangedEntriesKeepTheirObject(w: World, cfg: seq<Spec>, i: nat, j: nat)
    requires Formed(w) && i < |w.inForce| && j < |cfg|
    requires w.nodes[w.inForce[i]].spec == cfg[j]
    ensures var w' := SwapStep(w, cfg);
            w'.inForce[j] == w.inForce[i] && w'.nodes[w'.inForce[j]] == w.nodes[w.inForce[i]]
  {
    FindAt(w.nodes, w.inForce, i);
    SwapFollowsTheConfiguration(w, cfg);
  }

  /**
   An operator's Start that looked its endpoint up before a reload retired it, and
   acts after, brings the retired object back: running, wanted, and in no list.
   */
  lemma LateStartRevives(spec: Spec)
    ensures var w := Run(Empty(), LateStart(spec));
            && 0 in w.nodes && w.inForce == [] && w.reload.None?
            && w.nodes[0].ep.running && w.nodes[0].ep.wanted
  {
    var s := LateStart(spec);
    FirstSwap(spec);
    RunOne(Empty(), s);
    var w1 := Apply(Empty(), s[0]);
    assert w1 == SwapStep(Empty(), [spec]);
    hide SwapStep, Find, Run, Apply;
    LookupZero(w1, spec, s[1..]);
    RetireLast(w1.(reload := None, calls := map[0 := Call(0, true, false)]), spec, s[1..][2..]);
  }

  lemma LookupZero(w: World, spec: Spec, steps: seq<Step>)
    requires Formed(w) && w.nodes == map[0 := NewNode(spec)] && w.inForce == [0]
    requires w.reload == Some(Reload([], false, [])) && w.calls == map[]
    requires |steps| >= 2 && steps[..2] == [Rebuild(Bound), CallLookup(0, spec.name, true)]
    ensures var w' := w.(reload := None, calls := map[0 := Call(0, true, false)]);
            Formed(w') && Run(w, steps) == Run(w', steps[2..])
  {
    hide SwapStep, Find, Run;
    assert steps[0] == steps[..2][0] && steps[1] == steps[..2][1];
    var w1 := w.(reload := None);
    assert Apply(w, steps[0]) == w1;
    RunOne(w, steps);
    FindAt(w1.nodes, w1.inForce, 0);
    assert Apply(w1, steps[1]) == w1.(calls := map[0 := Call(0, true, false)]);
    RunOne(w1, steps[1..]);
    assert steps[1..][1..] == steps[2..];
  }

  lemma FirstSwap(spec: Spec)
    ensures var w := SwapStep(Empty(), [spec]);
            && w.nodes == map[0 := NewNode(spec)] && w.inForce == [0] && w.nextId == 1
            && w.reload == Some(Reload([], false, [])) && w.calls == map[] && w.passes == map[] && w.revived == {}
            && Formed(w)
  {
    SwapKeepsFormed(Empty(), [spec]);
    var nodes: map<Id, Node> := map[];
    assert Survivor(nodes, [], spec).None?;
    hide Survivor;
    assert Kept(nodes, [], 0, [spec]) == [0];
    assert Built(nodes, [], 0, [spec]) == map[0 := NewNode(spec)];
    assert Replacing(nodes, [], 0, [spec], [], 1) == [];
  }

  lemma LastSwap(w: World, spec: Spec)
    requires Formed(w) && w.nodes == map[0 := NewNode(spec)] && w.inForce == [0]
    ensures var w' := SwapStep(w, []);
            w'.nodes == w.nodes && w'.inForce == [] && w'.reload == Some(Reload([0], false, [])) && w'.calls == w.calls
  {
    assert !Survives(w.nodes, [0], [], spec.name);
    assert [0][1..] == [] && Retired(w.nodes, [0], [], []) == [];
    assert Retired(w.nodes, [0], [], [0]) == [0];
    assert Built(w.nodes, [0], w.nextId, []) == map[];
    assert Replacing(w.nodes, [0], w.nextId, [], [0], 0) == [];
  }

  function LateStart(spec: Spec): seq<Step> {
    [Swap([spec]), Rebuild(Bound), CallLookup(0, spec.name, true),
     Swap([]), Retire, Retire, Rebuild(Bound),
     CallIntent(0), CallAct(0, Bound)]
  }

  lemma RunOne(w: World, steps: seq<Step>)
    requires Formed(w) && steps != []
    ensures Formed(Apply(w, steps[0])) && Run(w, steps) == Run(Apply(w, steps[0]), steps[1..])
  {
    StepKeepsFormed(w, steps[0]);
  }

  lemma RetiresWith(w: World)
    requires Formed(w) && 0 in w.nodes && w.inForce == [] && w.reload.Some?
    requires w.reload.value.retiring == [0] && w.reload.value.rebuilding == []
    ensures var w' := Apply(w, Retire);
            && Formed(w') && 0 in w'.nodes && w'.inForce == [] && w'.calls == w.calls
            && (!w.reload.value.unwanted ==> w'.reload == Some(Reload([0], true, [])) && !w'.nodes[0].ep.wanted)
            && (w.reload.value.unwanted && !w.nodes[0].ep.wanted ==>
                  w'.reload == Some(Reload([], false, [])) && Down(w', 0))
  {
    hide SwapStep, Find, Run;
    StepKeepsFormed(w, Retire);
    assert [0][1..] == [];
  }

  lemma RetireZero(w: World, steps: seq<Step>)
    requires Formed(w) && 0 in w.nodes && w.inForce == [] && w.reload == Some(Reload([0], false, []))
    requires |steps| >= 3 && steps[..3] == [Retire, Retire, Rebuild(Bound)]
    ensures exists w' | Formed(w') ::
              && Run(w, steps) == Run(w', steps[3..])
              && w'.inForce == [] && w'.reload.None? && w'.calls == w.calls && Down(w', 0)
  {
    assert steps[0] == steps[..3][0] && steps[1] == steps[..3][1] && steps[2] == steps[..3][2];
    RetiresWith(w);
    var w1 := Apply(w, Retire);
    RetiresWith(w1);
    var w2 := Apply(w1, Retire);
    var w3 := Apply(w2, Rebuild(Bound));
    assert w3 == w2.(reload := None);
    StepKeepsFormed(w2, Rebuild(Bound));
    hide Apply, Run, Formed;
    RunOne(w, steps);
    RunOne(w1, steps[1..]);
    RunOne(w2, steps[2..]);
    assert steps[1..][1..] == steps[2..] && steps[2..][1..] == steps[3..];
  }

  lemma LateAct(w: World, steps: seq<Step>)
    requires Formed(w) && Down(w, 0) && w.calls == map[0 := Call(0, true, false)]
    requires steps == [CallIntent(0), CallAct(0, Bound)]
    ensures var w' := Run(w, steps);
            && w'.inForce == w.inForce && w'.reload == w.reload
            && 0 in w'.nodes && w'.nodes[0].ep.running && w'.nodes[0].ep.wanted
  {
    hide SwapStep, Find;
    RunOne(w, steps);
    var w1 := Apply(w, steps[0]);
    assert w1.calls[0] == Call(0, true, true);
    RunOne(w1, steps[1..]);
  }

  lemma RetireLast(w: World, spec: Spec, steps: seq<Step>)
    requires Formed(w) && w.nodes == map[0 := NewNode(spec)] && w.inForce == [0] && w.reload.None?
    requires w.calls == map[0 := Call(0, true, false)]
    requires steps == [Swap([]), Retire, Retire, Rebuild(Bound), CallIntent(0), CallAct(0, Bound)]
    ensures var w' := Run(w, steps);
            && 0 in w'.nodes && w'.inForce == [] && w'.reload.None?
            && w'.nodes[0].ep.running && w'.nodes[0].ep.wanted
  {
    LastSwap(w, spec);
    hide SwapStep, Find, Run;
    RunOne(w, steps);
    var w1 := Apply(w, steps[0]);
    RetireZero(w1, steps[1..]);
    var w4 :| Formed(w4) && Run(w1, steps[1..]) == Run(w4, steps[1..][3..])
              && w4.inForce == [] && w4.reload.None? && w4.calls == w1.calls && Down(w4, 0);
    LateAct(w4, steps[1..][3..]);
  }
}
