/**
 The supervisor object: the endpoints in force, and the loops of a reload and of a
 reconcile pass over them, each run here without interruption. What the addresses
 of the host answer to a bind is part of the state, so that the order in which a
 reload releases and takes them matters.
 */
module Supervisor {
  import opened Wrappers
  import opened EndpointLifecycle
  import ReloadRuns

  type Spec = ReloadRuns.Spec

  const ADDRESS_IN_USE := "address already in use"

  /** The addresses of the host that cannot be bound now, and why. */
  class Network {
    var refusals: map<string, string>

    ghost predicate Valid()
      reads this
    {
      forall a | a in refusals :: refusals[a] != ""
    }

    constructor (refusals: map<string, string>)
      requires forall a | a in refusals :: refusals[a] != ""
      ensures Valid() && this.refusals == refusals
    {
      this.refusals := refusals;
    }

    function Answer(listen: string): Bind
      reads this
    {
      AnswerIn(refusals, listen)
    }
  }

  function AnswerIn(refusals: map<string, string>, listen: string): Bind {
    if listen in refusals then Refused(refusals[listen]) else Bound
  }

  function SpecOf(ep: Endpoint): Spec {
    ReloadRuns.Spec(ep.name, ep.settings)
  }

  predicate UniqueListens(cfg: seq<Spec>) {
    forall i, j | 0 <= i < j < |cfg| :: cfg[i].settings.listen != cfg[j].settings.listen
  }

  predicate UniqueNames(eps: seq<Endpoint>) {
    forall i, j | 0 <= i < j < |eps| :: eps[i].name != eps[j].name
  }

  /** Every running endpoint holds its address, and no other running endpoint has the same one. */
  ghost predicate Holding(net: Network, eps: set<Endpoint>)
    reads net, eps
  {
    && net.Valid()
    && (forall ep | ep in eps && ep.running :: ep.settings.listen in net.refusals)
    && (forall e, f | e in eps && f in eps && e != f && e.running && f.running ::
              e.settings.listen != f.settings.listen)
  }

  ghost function All(eps: seq<Endpoint>): set<Endpoint> {
    set ep | ep in eps
  }

  ghost function ListeningOn(eps: set<Endpoint>): set<string>
    reads eps
  {
    set ep | ep in eps && ep.running :: ep.settings.listen
  }

  /** The predecessors that no entry of the new configuration asks for with the same settings. */
  ghost function Leaving(eps: seq<Endpoint>, cfg: seq<Spec>): set<Endpoint> {
    set ep | ep in eps && SpecOf(ep) !in cfg
  }

  /** findEndpoint: the first of that name. */
  method FindEndpoint(list: seq<Endpoint>, name: string) returns (found: Endpoint?)
    ensures found != null ==>
              exists i | 0 <= i < |list| ::
                list[i] == found && found.name == name && forall j | 0 <= j < i :: list[j].name != name
    ensures found == null ==> forall ep | ep in list :: ep.name != name
  {
    for i := 0 to |list|
      invariant forall j | 0 <= j < i :: list[j].name != name
    {
      if list[i].name == name {
        return list[i];
      }
    }
    found := null;
  }

  /** Start or retry: the bind and what the endpoint records of it. */
  method StartOne(net: Network, ep: Endpoint, onlyIfWanted: bool, reportRepeated: bool, ghost all: set<Endpoint>)
    returns (started: bool, err: string)
    requires Holding(net, all) && ep in all
    modifies net`refusals, ep`running, ep`bindErr, ep`serveErr, ep`generation
    ensures Holding(net, all)
    ensures var out := old(StartSection(ep.State(), onlyIfWanted, reportRepeated, net.Answer(ep.settings.listen)));
            ep.State() == out.ep && started == out.started && err == out.err
    ensures net.refusals == old(net.refusals) + if started then map[ep.settings.listen := ADDRESS_IN_USE] else map[]
  {
    var report;
    started, err, report := ep.StartListener(onlyIfWanted, reportRepeated, net.Answer(ep.settings.listen));
    if started {
      net.refusals := net.refusals[ep.settings.listen := ADDRESS_IN_USE];
    }
  }

  /** Stop: the teardown releases the address. */
  method StopOne(net: Network, ep: Endpoint, ghost all: set<Endpoint>)
    requires Holding(net, all) && ep in all
    modifies net`refusals, ep
    ensures Holding(net, all)
    ensures ep.State() == StopSection(old(ep.State()), ep.firstVerdict).0
    ensures net.refusals == old(net.refusals) - if old(ep.running) then {ep.settings.listen} else {}
  {
    var torn := ep.Stop();
    if torn.Some? {
      net.refusals := net.refusals - {ep.settings.listen};
    }
  }

  /** Retiring: no longer wanted, then stopped, one after the other. */
  method RetireAll(net: Network, retired: seq<Endpoint>, ghost all: set<Endpoint>)
    requires Holding(net, all) && All(retired) <= all && UniqueNames(retired)
    modifies net`refusals, retired
    ensures Holding(net, all)
    ensures forall ep | ep in retired :: !ep.wanted && !ep.running
    ensures net.refusals == old(net.refusals) - old(ListeningOn(All(retired)))
  {
    ghost var freed: set<string> := {};
    for i := 0 to |retired|
      invariant Holding(net, all)
      invariant forall k | 0 <= k < i :: !retired[k].wanted && !retired[k].running
      invariant forall k | i <= k < |retired| :: retired[k].running == old(retired[k].running)
      invariant net.refusals == old(net.refusals) - freed
      invariant freed <= old(ListeningOn(All(retired)))
      invariant forall k | 0 <= k < i && old(retired[k].running) :: retired[k].settings.listen in freed
    {
      assert retired[i] in All(retired);
      assert forall k | 0 <= k < |retired| && k != i :: retired[k] != retired[i];
      freed := freed + if retired[i].running then {retired[i].settings.listen} else {};
      retired[i].SetDesired(false);
      StopOne(net, retired[i], all);
    }
    assert freed == old(ListeningOn(All(retired)));
  }

  ghost predicate Named(eps: seq<Endpoint>, name: string) {
    exists ep | ep in eps :: ep.name == name
  }

  /** What an endpoint just built becomes: a replacement tries to bind at once, a newcomer is left alone. */
  ghost function BroughtUp(ep: Endpoint, retired: seq<Endpoint>, net: Network): EndpointState<Signal>
    reads ep, net
  {
    if Named(retired, ep.name) then StartSection(ep.State(), false, true, net.Answer(ep.settings.listen)).ep
    else ep.State()
  }

  method StartReplacement(net: Network, ep: Endpoint, retired: seq<Endpoint>, ghost all: set<Endpoint>)
    requires Holding(net, all) && ep in all
    modifies net`refusals, ep
    ensures Holding(net, all)
    ensures ep.State() == old(BroughtUp(ep, retired, net))
    ensures forall a | a != ep.settings.listen :: net.Answer(a) == old(net.Answer(a))
    ensures old(net.refusals).Keys <= net.refusals.Keys <= old(net.refusals).Keys + {ep.settings.listen}
  {
    var replaced := FindEndpoint(retired, ep.name);
    if replaced != null {
      assert replaced in retired;
      var _, _ := StartOne(net, ep, false, true, all);
    }
  }

  /** What a replacement finds at its address decides whether it comes up. */
  method StartReplacements(net: Network, added: seq<Endpoint>, retired: seq<Endpoint>, ghost all: set<Endpoint>)
    requires Holding(net, all) && All(added) <= all
    requires forall i, j | 0 <= i < j < |added| :: added[i].settings.listen != added[j].settings.listen
    modifies net`refusals, added
    ensures Holding(net, all)
    ensures forall ep | ep in added :: ep.State() == old(BroughtUp(ep, retired, net))
    ensures old(net.refusals).Keys <= net.refusals.Keys
  {
    for i := 0 to |added|
      invariant Holding(net, all)
      invariant forall k | 0 <= k < i :: added[k].State() == old(BroughtUp(added[k], retired, net))
      invariant forall k | i <= k < |added| ::
                BroughtUp(added[k], retired, net) == old(BroughtUp(added[k], retired, net))
      invariant old(net.refusals).Keys <= net.refusals.Keys
    {
      assert added[i] in All(added);
      assert forall k | 0 <= k < |added| && k != i :: added[k] != added[i];
      label before:
      StartReplacement(net, added[i], retired, all);
      forall k | i < k < |added|
        ensures BroughtUp(added[k], retired, net) == old@before(BroughtUp(added[k], retired, net))
      {
        assert net.Answer(added[k].settings.listen) == old@before(net.Answer(added[k].settings.listen));
        assert unchanged@before(added[k]);
      }
    }
  }

  predicate Asks(eps: seq<Endpoint>, spec: Spec) {
    exists ep | ep in eps :: SpecOf(ep) == spec
  }

  ghost predicate JustBuilt(ep: Endpoint)
    reads ep
  {
    ep.State() == EndpointState(false, true, 0, "", "", None, ep.firstVerdict, None, None, false, None)
  }

  /** The endpoint for one entry: its predecessor if the settings are the same, a new one if the upstream parses. */
  method Pick(previous: seq<Endpoint>, spec: Spec, parses: set<string>) returns (ep: Endpoint?, survives: bool)
    requires UniqueNames(previous)
    ensures survives <==> Asks(previous, spec)
    ensures ep == null <==> !survives && spec.settings.upstream !in parses
    ensures ep != null ==> SpecOf(ep) == spec && if survives then ep in previous else fresh(ep) && JustBuilt(ep)
  {
    var existing := FindEndpoint(previous, spec.name);
    if existing != null && existing.settings == spec.settings {
      assert SpecOf(existing) == spec && existing in previous;
      return existing, true;
    }
    if spec.settings.upstream !in parses {
      return null, false;
    }
    ep := new Endpoint(spec.name, spec.settings);
    survives := false;
  }

  /** The first loop of a reload; `parses` are the upstreams an endpoint can be built for. */
  method Build(previous: seq<Endpoint>, cfg: seq<Spec>, parses: set<string>)
    returns (ok: bool, kept: seq<Endpoint>, added: seq<Endpoint>, surviving: set<string>)
    requires UniqueNames(previous) && ReloadRuns.UniqueNames(cfg) && UniqueListens(cfg)
    ensures ok <==> forall spec | spec in cfg :: Asks(previous, spec) || spec.settings.upstream in parses
    ensures ok ==> |kept| == |cfg| && forall k | 0 <= k < |cfg| :: SpecOf(kept[k]) == cfg[k]
    ensures ok ==> forall ep | ep in kept :: ep in previous || ep in added
    ensures ok ==> forall ep | ep in previous :: ep in kept <==> SpecOf(ep) in cfg
    ensures ok ==> forall ep | ep in previous :: ep.name in surviving <==> SpecOf(ep) in cfg
    ensures forall ep | ep in added :: fresh(ep) && JustBuilt(ep)
    ensures ok ==> forall ep | ep in added :: ep in kept
    ensures forall i, j | 0 <= i < j < |added| :: added[i].settings.listen != added[j].settings.listen
  {
    hide Asks, JustBuilt;
    kept, added, surviving := [], [], {};
    for i := 0 to |cfg|
      invariant |kept| == i && forall k | 0 <= k < i :: SpecOf(kept[k]) == cfg[k]
      invariant forall k | 0 <= k < i :: Asks(previous, cfg[k]) || cfg[k].settings.upstream in parses
      invariant forall k | 0 <= k < i :: if Asks(previous, cfg[k]) then kept[k] in previous else kept[k] in added
      invariant surviving == set k | 0 <= k < i && Asks(previous, cfg[k]) :: cfg[k].name
      invariant forall ep | ep in added :: fresh(ep) && JustBuilt(ep) && ep in kept
      invariant forall x, y | 0 <= x < y < |added| :: added[x].settings.listen != added[y].settings.listen
    {
      var spec := cfg[i];
      assert spec in cfg;
      var ep, survives := Pick(previous, spec, parses);
      if ep == null {
        return false, kept, added, surviving;
      }
      NoSharedListen(cfg, kept, added);
      kept := kept + [ep];
      if survives {
        surviving := surviving + {spec.name};
      } else {
        added := added + [ep];
      }
    }
    ok := true;
    forall ep | ep in previous
      ensures (ep.name in surviving <==> SpecOf(ep) in cfg) && (ep in kept <==> SpecOf(ep) in cfg)
    {
      SurvivesByName(previous, cfg, kept, ep);
    }
  }

  /** Nothing built for an earlier entry listens where the next one does. */
  lemma NoSharedListen(cfg: seq<Spec>, kept: seq<Endpoint>, added: seq<Endpoint>)
    requires UniqueListens(cfg) && |kept| < |cfg| && forall k | 0 <= k < |kept| :: SpecOf(kept[k]) == cfg[k]
    requires forall ep | ep in added :: ep in kept
    ensures forall k | 0 <= k < |added| :: added[k].settings.listen != cfg[|kept|].settings.listen
  {
    forall k | 0 <= k < |added| ensures added[k].settings.listen != cfg[|kept|].settings.listen {
      assert added[k] in added;
      var m :| 0 <= m < |kept| && kept[m] == added[k];
      assert cfg[m].settings.listen == added[k].settings.listen;
    }
  }

  lemma SurvivesByName(previous: seq<Endpoint>, cfg: seq<Spec>, kept: seq<Endpoint>, ep: Endpoint)
    requires UniqueNames(previous) && ReloadRuns.UniqueNames(cfg) && ep in previous
    requires |kept| == |cfg| && forall k | 0 <= k < |cfg| :: SpecOf(kept[k]) == cfg[k]
    requires forall k | 0 <= k < |cfg| && Asks(previous, cfg[k]) :: kept[k] in previous
    ensures (exists k | 0 <= k < |cfg| :: Asks(previous, cfg[k]) && cfg[k].name == ep.name) <==> SpecOf(ep) in cfg
    ensures ep in kept <==> SpecOf(ep) in cfg
  {
    if SpecOf(ep) in cfg {
      var k :| 0 <= k < |cfg| && cfg[k] == SpecOf(ep);
      assert Asks(previous, cfg[k]);
      assert kept[k].name == ep.name;
    }
  }

  /** The second loop: the predecessors whose name does not survive. */
  method Unnamed(previous: seq<Endpoint>, surviving: set<string>) returns (retired: seq<Endpoint>)
    requires UniqueNames(previous)
    ensures forall ep :: ep in retired <==> ep in previous && ep.name !in surviving
    ensures UniqueNames(retired)
  {
    retired := [];
    assert previous[..0] == [];
    for i := 0 to |previous|
      invariant forall ep :: ep in retired <==> ep in previous[..i] && ep.name !in surviving
      invariant UniqueNames(retired)
    {
      assert previous[..i + 1] == previous[..i] + [previous[i]];
      assert forall k | 0 <= k < |retired| :: retired[k] in previous[..i];
      if previous[i].name !in surviving {
        retired := retired + [previous[i]];
      }
    }
    assert previous[..|previous|] == previous;
  }

  lemma OnePerName(kept: seq<Endpoint>, cfg: seq<Spec>, p: Endpoint, ep: Endpoint)
    requires ReloadRuns.UniqueNames(cfg) && |kept| == |cfg| && forall k | 0 <= k < |cfg| :: SpecOf(kept[k]) == cfg[k]
    requires p in kept && ep in kept && p.name == ep.name
    ensures p == ep
  {
    var i :| 0 <= i < |kept| && kept[i] == p;
    var j :| 0 <= j < |kept| && kept[j] == ep;
    assert cfg[i].name == cfg[j].name;
  }

  /** Entry by entry what stays, what is new and what goes. */
  ghost predicate Planned(
      previous: seq<Endpoint>, cfg: seq<Spec>, kept: seq<Endpoint>, added: seq<Endpoint>,
      retired: seq<Endpoint>)
  {
    && |kept| == |cfg| && (forall k | 0 <= k < |cfg| :: SpecOf(kept[k]) == cfg[k])
    && All(kept) == All(previous) - Leaving(previous, cfg) + All(added)
    && All(retired) == Leaving(previous, cfg) && UniqueNames(retired)
    && (forall ep | ep in added :: ep !in previous && (Named(retired, ep.name) <==> Named(previous, ep.name)))
    && (forall i, j | 0 <= i < j < |added| :: added[i].settings.listen != added[j].settings.listen)
  }

  lemma PlannedMembers(
      previous: seq<Endpoint>, cfg: seq<Spec>, kept: seq<Endpoint>, added: seq<Endpoint>,
      retired: seq<Endpoint>)
    requires Planned(previous, cfg, kept, added, retired)
    ensures forall ep | ep in previous ::
              if SpecOf(ep) in cfg then ep in kept else ep !in kept && ep in Leaving(previous, cfg)
    ensures forall ep | ep in kept && ep !in previous :: ep in added
  {
    forall ep ensures ep in kept <==> (ep in previous && SpecOf(ep) in cfg) || ep in added {
      assert ep in All(kept) <==> ep in All(previous) - Leaving(previous, cfg) + All(added);
    }
  }

  /** Everything a reload decides before the swap. */
  method Plan(previous: seq<Endpoint>, cfg: seq<Spec>, parses: set<string>)
    returns (ok: bool, kept: seq<Endpoint>, added: seq<Endpoint>, retired: seq<Endpoint>)
    requires UniqueNames(previous) && ReloadRuns.UniqueNames(cfg) && UniqueListens(cfg)
    ensures ok <==> forall spec | spec in cfg :: Asks(previous, spec) || spec.settings.upstream in parses
    ensures ok ==> Planned(previous, cfg, kept, added, retired) && forall ep | ep in added :: fresh(ep) && JustBuilt(ep)
  {
    hide JustBuilt, Asks;
    var surviving;
    ok, kept, added, surviving := Build(previous, cfg, parses);
    if !ok {
      return false, [], [], [];
    }
    retired := Unnamed(previous, surviving);
    forall ep | ep in added ensures Named(retired, ep.name) <==> Named(previous, ep.name) {
      if Named(previous, ep.name) {
        var p :| p in previous && p.name == ep.name;
        if p in kept {
          OnePerName(kept, cfg, p, ep);
        }
      }
    }
  }

  /** What an endpoint built by a reload finds: a replacement tries at once the addresses the retired ones held. */
  ghost predicate Placed(ep: Endpoint, rebuilt: bool, refusals: map<string, string>)
    reads ep
  {
    && ep.wanted && ep.verdict.None?
    && if !rebuilt then !ep.running && ep.bindErr == ""
       else match AnswerIn(refusals, ep.settings.listen)
            case Bound => ep.running && ep.bindErr == ""
            case Refused(err) => !ep.running && ep.bindErr == err
  }

  lemma NewcomersHoldNothing(net: Network, eps: seq<Endpoint>, added: seq<Endpoint>, all: set<Endpoint>)
    requires Holding(net, All(eps)) && forall ep | ep in all :: ep in eps || (ep in added && JustBuilt(ep))
    requires forall ep | ep in added :: JustBuilt(ep)
    ensures Holding(net, all)
  {
    assert forall ep | ep in all && ep.running :: ep in All(eps);
  }

  lemma HoldingOfSome(net: Network, all: set<Endpoint>, some: set<Endpoint>)
    requires Holding(net, all) && some <= all
    ensures Holding(net, some)
  {
  }

  /** The two loops after the swap. Retiring comes first, or no replacement could bind where its predecessor listens. */
  method SwitchOver(net: Network, ghost previous: seq<Endpoint>, ghost cfg: seq<Spec>, ghost kept: seq<Endpoint>,
                    added: seq<Endpoint>, retired: seq<Endpoint>)
    requires Planned(previous, cfg, kept, added, retired) && Holding(net, All(previous))
    requires forall ep | ep in added :: JustBuilt(ep)
    modifies net`refusals, Leaving(previous, cfg) + All(added)
    ensures Holding(net, All(kept))
    ensures forall ep | ep in Leaving(previous, cfg) :: !ep.wanted && !ep.running
    ensures forall ep | ep in added ::
              Placed(ep, Named(previous, ep.name), old(net.refusals) - old(ListeningOn(Leaving(previous, cfg))))
  {
    ghost var all := All(previous) + All(added);
    NewcomersHoldNothing(net, previous, added, all);
    assert forall ep | ep in retired :: ep in All(retired);
    RetireAll(net, retired, all);
    forall ep | ep in added ensures JustBuilt(ep) {
      assert ep in All(added) && ep !in All(retired);
      assert unchanged(ep);
    }
    label retired_all:
    StartReplacements(net, added, retired, all);
    forall ep | ep in added
      ensures Placed(ep, Named(previous, ep.name), old(net.refusals) - old(ListeningOn(All(retired))))
    {
      assert ep.State() == old@retired_all(BroughtUp(ep, retired, net));
    }
    forall ep | ep in All(retired) ensures !ep.wanted && !ep.running {
      assert ep !in All(added);
      assert unchanged@retired_all(ep);
    }
    HoldingOfSome(net, all, All(kept));
  }

  /** One endpoint of a reconcile pass. */
  method Revisit(net: Network, endpoints: seq<Endpoint>, ep: Endpoint) returns (started: bool)
    requires Holding(net, All(endpoints)) && UniqueNames(endpoints) && ep in endpoints
    modifies net`refusals, ep
    ensures Holding(net, All(endpoints))
    ensures started <==> ep.running && !old(ep.running)
    ensures old(ep.running) || !old(ep.wanted) ==> unchanged(ep)
    ensures ep.wanted == old(ep.wanted)
    ensures ep.wanted ==> ep.running || (ep.bindErr != "" && ep.settings.listen in net.refusals)
    ensures old(net.refusals).Keys <= net.refusals.Keys
  {
    if !ep.wanted || ep.running {
      return false;
    }
    var current := FindEndpoint(endpoints, ep.name);
    if current != ep {
      return false;
    }
    var err;
    started, err := StartOne(net, ep, true, false, All(endpoints));
    started := err == "" && started;
  }

  /** A pass leaves alone what was running or is not wanted, and changes no intent. */
  twostate predicate Revisited(ep: Endpoint)
    reads ep
  {
    ep.wanted == old(ep.wanted) && (old(ep.running || !ep.wanted) ==> unchanged(ep))
  }

  /** Down the list; `up` are the endpoints brought up. */
  method VisitAll(net: Network, list: seq<Endpoint>) returns (restarted: nat, ghost up: set<Endpoint>)
    requires Holding(net, All(list)) && UniqueNames(list)
    modifies net`refusals, list
    ensures Holding(net, All(list))
    ensures forall k | 0 <= k < |list| ::
              Revisited(list[k]) && (list[k].running && !old(list[k].running) <==> list[k] in up)
    ensures forall k | 0 <= k < |list| && list[k].wanted ::
              list[k].running || (list[k].bindErr != "" && list[k].settings.listen in net.refusals)
    ensures up <= All(list) && restarted == |up|
  {
    restarted, up := 0, {};
    for i := 0 to |list|
      invariant Holding(net, All(list))
      invariant forall k | 0 <= k < i ::
                  Revisited(list[k]) && (list[k].running && !old(list[k].running) <==> list[k] in up)
      invariant forall k | 0 <= k < i && list[k].wanted ::
                  list[k].running || (list[k].bindErr != "" && list[k].settings.listen in net.refusals)
      invariant forall k | i <= k < |list| :: unchanged(list[k]) && list[k] !in up
      invariant up <= All(list) && restarted == |up|
    {
      assert forall k | 0 <= k < |list| && k != i :: list[k] != list[i];
      var started := Revisit(net, list, list[i]);
      if started {
        up := up + {list[i]};
        restarted := restarted + 1;
      }
    }
  }

  class Supervisor {
    const net: Network
    var endpoints: seq<Endpoint>
    var closed: bool

    ghost predicate Valid()
      reads this, net, endpoints
    {
      UniqueNames(endpoints) && Holding(net, All(endpoints))
    }

    constructor (net: Network)
      requires net.Valid()
      ensures Valid() && this.net == net && endpoints == [] && !closed
    {
      this.net := net;
      endpoints, closed := [], false;
    }

    /** The refusals once every endpoint that leaves has released its address. */
    ghost function Freed(cfg: seq<Spec>): map<string, string>
      reads this, net, endpoints
    {
      net.refusals - ListeningOn(Leaving(endpoints, cfg))
    }

    /** One reload, start to end, with no other step in between. */
    method Reload(cfg: seq<Spec>, verifierBuilt: bool, parses: set<string>) returns (ok: bool)
      requires Valid() && ReloadRuns.UniqueNames(cfg) && UniqueListens(cfg)
      modifies this`endpoints, net`refusals, endpoints
      ensures Valid()
      ensures ok <==> verifierBuilt && forall spec | spec in cfg ::
                old(Asks(endpoints, spec)) || spec.settings.upstream in parses
      ensures !ok ==> endpoints == old(endpoints) && unchanged(net) && unchanged(endpoints)
      ensures ok ==> |endpoints| == |cfg| && forall k | 0 <= k < |cfg| :: SpecOf(endpoints[k]) == cfg[k]
      ensures ok ==> forall ep | ep in old(endpoints) && SpecOf(ep) in cfg :: ep in endpoints && unchanged(ep)
      ensures ok ==> forall ep | ep in old(endpoints) && SpecOf(ep) !in cfg ::
                ep !in endpoints && !ep.wanted && !ep.running
      ensures ok ==> forall ep | ep in endpoints && ep !in old(endpoints) ::
                fresh(ep) && Placed(ep, Named(old(endpoints), ep.name), old(Freed(cfg)))
    {
      if !verifierBuilt {
        return false;
      }
      hide JustBuilt, Placed, Asks, Named;
      var kept, added, retired;
      ok, kept, added, retired := Plan(endpoints, cfg, parses);
      if !ok {
        return;
      }
      ghost var previous := endpoints;
      endpoints := kept;
      SwitchOver(net, previous, cfg, kept, added, retired);
      PlannedMembers(previous, cfg, kept, added, retired);
    }

    /**
     One pass with nothing interleaved: whatever is wanted is then serving or says
     why it cannot, and nobody's Stop is overridden.
     */
    method Reconcile() returns (restarted: nat)
      requires Valid()
      modifies net`refusals, endpoints
      ensures Valid() && endpoints == old(endpoints)
      ensures closed ==> restarted == 0 && unchanged(net) && unchanged(endpoints)
      ensures !closed ==> forall ep | ep in endpoints && ep.wanted ::
                ep.running || (ep.bindErr != "" && ep.settings.listen in net.refusals)
      ensures forall ep | ep in endpoints :: Revisited(ep)
      ensures restarted == |set ep | ep in endpoints && ep.running && !old(ep.running)|
    {
      restarted := 0;
      if closed {
        ghost var none := set ep | ep in endpoints && ep.running && !old(ep.running);
        assert none == {};
        return;
      }
      ghost var up;
      restarted, up := VisitAll(net, endpoints);
      assert up == set ep | ep in endpoints && ep.running && !old(ep.running);
    }

    /** An operator's Start: the intent is recorded even if the bind then fails. */
    method Start(name: string) returns (known: bool, err: string)
      requires Valid()
      modifies net`refusals, endpoints
      ensures Valid() && endpoints == old(endpoints)
      ensures known <==> Named(endpoints, name)
      ensures forall ep | ep in endpoints ::
                if ep.name != name then unchanged(ep)
                else ep.wanted && (err == "" <==> ep.running) && (err != "" ==> ep.bindErr == err)
    {
      var ep := FindEndpoint(endpoints, name);
      if ep == null {
        return false, "no endpoint of that name";
      }
      ep.SetDesired(true);
      var started;
      started, err := StartOne(net, ep, false, true, All(endpoints));
      known := true;
    }

    /** An operator's Stop: down, left alone by every later pass, its address free again. */
    method Stop(name: string) returns (known: bool)
      requires Valid()
      modifies net`refusals, endpoints
      ensures Valid() && endpoints == old(endpoints)
      ensures known <==> Named(endpoints, name)
      ensures forall ep | ep in endpoints ::
                if ep.name != name then unchanged(ep)
                else !ep.wanted && !ep.running && (old(ep.running) ==> ep.settings.listen !in net.refusals)
    {
      var ep := FindEndpoint(endpoints, name);
      if ep == null {
        return false;
      }
      ep.SetDesired(false);
      StopOne(net, ep, All(endpoints));
      known := true;
    }
  }
}
