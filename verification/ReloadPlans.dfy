/**
 The plan a reload's loops make over endpoint objects is the swap step of the
 interleaved model, with the predecessors numbered from 0 and the entries of the
 configuration from there on.
 */
module ReloadPlans {
  import opened Wrappers
  import opened EndpointLifecycle
  import opened Supervisor
  import ReloadRuns

  ghost function NodesOf(eps: seq<Endpoint>): map<ReloadRuns.Id, ReloadRuns.Node> {
    map i: nat | i < |eps| :: ReloadRuns.NewNode(SpecOf(eps[i]))
  }

  ghost function IdsOf(eps: seq<Endpoint>): (ids: seq<ReloadRuns.Id>)
    ensures |ids| == |eps| && forall i | 0 <= i < |eps| :: ids[i] == i
    ensures ReloadRuns.Known(NodesOf(eps), ids)
  {
    seq(|eps|, i => i)
  }

  lemma NumberedNamesAreDistinct(eps: seq<Endpoint>)
    requires UniqueNames(eps)
    ensures ReloadRuns.DistinctNames(NodesOf(eps), IdsOf(eps))
  {
  }

  /** An entry survives with predecessor i exactly when that is what predecessor i asks for. */
  lemma SurvivorIsThatPredecessor(eps: seq<Endpoint>, spec: Spec, i: nat)
    requires UniqueNames(eps) && i < |eps|
    ensures ReloadRuns.Survivor(NodesOf(eps), IdsOf(eps), spec) == Some(i) <==> SpecOf(eps[i]) == spec
  {
    NumberedNamesAreDistinct(eps);
    ReloadRuns.FindAt(NodesOf(eps), IdsOf(eps), i);
  }

  /** Entry k of the new list is the predecessor the swap keeps there, or a new object where the swap builds one. */
  ghost predicate SameEntry(
      previous: seq<Endpoint>, cfg: seq<Spec>, kept: seq<Endpoint>, added: seq<Endpoint>, k: nat)
  {
    && |kept| == |cfg| && k < |cfg|
    && var id := ReloadRuns.Kept(NodesOf(previous), IdsOf(previous), |previous|, cfg)[k];
       if id < |previous| then kept[k] == previous[id] else id == |previous| + k && kept[k] in added
  }

  /** Predecessor i is retired by the loops if and only if the swap retires it. */
  ghost predicate SameFate(previous: seq<Endpoint>, cfg: seq<Spec>, retired: seq<Endpoint>, i: nat) {
    && i < |previous|
    && (i in ReloadRuns.Retired(NodesOf(previous), IdsOf(previous), cfg, IdsOf(previous)) <==> previous[i] in retired)
  }

  /** Entry k is brought up at once by the loops if and only if the swap puts it among the replacements. */
  ghost predicate SameReplacement(
      previous: seq<Endpoint>, cfg: seq<Spec>, kept: seq<Endpoint>, added: seq<Endpoint>,
      retired: seq<Endpoint>, k: nat)
  {
    var nodes, ids, n := NodesOf(previous), IdsOf(previous), |previous|;
    && |kept| == |cfg| && k < |cfg|
    && (n + k in ReloadRuns.Replacing(nodes, ids, n, cfg, ReloadRuns.Retired(nodes, ids, cfg, ids), 0) <==>
        kept[k] in added && Named(retired, cfg[k].name))
  }

  lemma KeptIsTheSame(
      previous: seq<Endpoint>, cfg: seq<Spec>, kept: seq<Endpoint>, added: seq<Endpoint>,
      retired: seq<Endpoint>, k: nat)
    requires Planned(previous, cfg, kept, added, retired) && UniqueNames(previous) && ReloadRuns.UniqueNames(cfg) &&
              k < |cfg|
    ensures SameEntry(previous, cfg, kept, added, k)
  {
    hide ReloadRuns.Survivor, ReloadRuns.Kept, ReloadRuns.Find, Planned;
    PlannedMembers(previous, cfg, kept, added, retired);
    PlannedSpecs(previous, cfg, kept, added, retired);
    var found := ReloadRuns.Survivor(NodesOf(previous), IdsOf(previous), cfg[k]);
    if found.Some? {
      var i := found.value;
      SurvivorIsThatPredecessor(previous, cfg[k], i);
      assert previous[i] in kept;
      var j :| 0 <= j < |kept| && kept[j] == previous[i];
      assert cfg[j].name == cfg[k].name;
    } else if kept[k] in previous {
      var i :| 0 <= i < |previous| && previous[i] == kept[k];
      SurvivorIsThatPredecessor(previous, cfg[k], i);
    }
  }

  lemma PlannedSpecs(
      previous: seq<Endpoint>, cfg: seq<Spec>, kept: seq<Endpoint>, added: seq<Endpoint>,
      retired: seq<Endpoint>)
    requires Planned(previous, cfg, kept, added, retired)
    ensures |kept| == |cfg| && forall k | 0 <= k < |cfg| :: SpecOf(kept[k]) == cfg[k]
    ensures forall ep | ep in previous :: ep in retired <==> SpecOf(ep) !in cfg
  {
    forall ep ensures ep in retired <==> ep in previous && SpecOf(ep) !in cfg {
      assert ep in All(retired) <==> ep in Leaving(previous, cfg);
    }
  }

  lemma RetiredIsTheSame(
      previous: seq<Endpoint>, cfg: seq<Spec>, kept: seq<Endpoint>, added: seq<Endpoint>,
      retired: seq<Endpoint>, i: nat)
    requires Planned(previous, cfg, kept, added, retired) && UniqueNames(previous) && ReloadRuns.UniqueNames(cfg) &&
              i < |previous|
    ensures SameFate(previous, cfg, retired, i)
  {
    hide ReloadRuns.Survivor, ReloadRuns.Find, Planned;
    PlannedSpecs(previous, cfg, kept, added, retired);
    var nodes, ids := NodesOf(previous), IdsOf(previous);
    assert ids[i] == i && nodes[i].spec == SpecOf(previous[i]);
    if ReloadRuns.Survives(nodes, ids, cfg, previous[i].name) {
      var k :| 0 <= k < |cfg| && cfg[k].name == previous[i].name && ReloadRuns.Survivor(nodes, ids, cfg[k]).Some?;
      var j := ReloadRuns.Survivor(nodes, ids, cfg[k]).value;
      SurvivorIsThatPredecessor(previous, cfg[k], j);
      assert previous[j].name == previous[i].name;
    }
    if SpecOf(previous[i]) in cfg {
      var k :| 0 <= k < |cfg| && cfg[k] == SpecOf(previous[i]);
      SurvivorIsThatPredecessor(previous, cfg[k], i);
      assert ReloadRuns.Survives(nodes, ids, cfg, previous[i].name);
    }
  }

  lemma ReplacementIsTheSame(
      previous: seq<Endpoint>, cfg: seq<Spec>, kept: seq<Endpoint>, added: seq<Endpoint>,
      retired: seq<Endpoint>, k: nat)
    requires Planned(previous, cfg, kept, added, retired) && UniqueNames(previous) && ReloadRuns.UniqueNames(cfg) &&
              k < |cfg|
    ensures SameReplacement(previous, cfg, kept, added, retired, k)
  {
    hide ReloadRuns.Survivor, ReloadRuns.Find, ReloadRuns.Retired, ReloadRuns.Replacing, ReloadRuns.Kept;
    hide Planned, Named;
    var nodes, ids, n := NodesOf(previous), IdsOf(previous), |previous|;
    ReloadRuns.ReplacingIff(nodes, ids, n, cfg, ReloadRuns.Retired(nodes, ids, cfg, ids), 0, k);
    NamedIsFound(previous, cfg, kept, added, retired, cfg[k].name);
    AddedIffNothingSurvives(previous, cfg, kept, added, retired, k);
  }

  lemma AddedIffNothingSurvives(
      previous: seq<Endpoint>, cfg: seq<Spec>, kept: seq<Endpoint>, added: seq<Endpoint>,
      retired: seq<Endpoint>, k: nat)
    requires Planned(previous, cfg, kept, added, retired) && UniqueNames(previous) && ReloadRuns.UniqueNames(cfg) &&
              k < |cfg|
    ensures |kept| == |cfg|
    ensures kept[k] in added <==> ReloadRuns.Survivor(NodesOf(previous), IdsOf(previous), cfg[k]).None?
  {
    hide ReloadRuns.Survivor, ReloadRuns.Find, ReloadRuns.Kept, Planned;
    PlannedSpecs(previous, cfg, kept, added, retired);
    KeptIsTheSame(previous, cfg, kept, added, retired, k);
    AddedIsNotPrevious(previous, cfg, kept, added, retired);
    var found := ReloadRuns.Survivor(NodesOf(previous), IdsOf(previous), cfg[k]);
    if found.Some? {
      assert found.value in IdsOf(previous);
    }
  }

  lemma AddedIsNotPrevious(
      previous: seq<Endpoint>, cfg: seq<Spec>, kept: seq<Endpoint>, added: seq<Endpoint>,
      retired: seq<Endpoint>)
    requires Planned(previous, cfg, kept, added, retired)
    ensures forall ep | ep in added :: ep !in previous
    ensures forall ep | ep in retired :: ep in previous
  {
    forall ep | ep in retired ensures ep in previous {
      assert ep in All(retired);
    }
  }

  lemma NamedIsFound(
      previous: seq<Endpoint>, cfg: seq<Spec>, kept: seq<Endpoint>, added: seq<Endpoint>,
      retired: seq<Endpoint>, name: string)
    requires Planned(previous, cfg, kept, added, retired) && UniqueNames(previous) && ReloadRuns.UniqueNames(cfg)
    ensures var nodes, ids := NodesOf(previous), IdsOf(previous);
            ReloadRuns.Find(nodes, ReloadRuns.Retired(nodes, ids, cfg, ids), name).Some? <==> Named(retired, name)
  {
    AddedIsNotPrevious(previous, cfg, kept, added, retired);
    hide ReloadRuns.Retired, Planned, ReloadRuns.Survives;
    var nodes, ids := NodesOf(previous), IdsOf(previous);
    var gone := ReloadRuns.Retired(nodes, ids, cfg, ids);
    var found := ReloadRuns.Find(nodes, gone, name);
    if found.Some? {
      assert found.value in ids;
      RetiredIsTheSame(previous, cfg, kept, added, retired, found.value);
      assert previous[found.value].name == name;
    }
    if Named(retired, name) {
      var ep :| ep in retired && ep.name == name;
      var i :| 0 <= i < |previous| && previous[i] == ep;
      RetiredIsTheSame(previous, cfg, kept, added, retired, i);
      var j :| 0 <= j < |gone| && gone[j] == i;
      assert nodes[gone[j]].spec.name == name;
    }
  }

  /** The loops keep, build, retire and replace exactly what the swap step of the interleaved model does. */
  lemma PlanIsTheSwap(
      previous: seq<Endpoint>, cfg: seq<Spec>, kept: seq<Endpoint>, added: seq<Endpoint>,
      retired: seq<Endpoint>)
    requires Planned(previous, cfg, kept, added, retired) && UniqueNames(previous) && ReloadRuns.UniqueNames(cfg)
    ensures forall k | 0 <= k < |cfg| :: SameEntry(previous, cfg, kept, added, k)
    ensures forall i | 0 <= i < |previous| :: SameFate(previous, cfg, retired, i)
    ensures forall k | 0 <= k < |cfg| :: SameReplacement(previous, cfg, kept, added, retired, k)
  {
    hide SameEntry, SameFate, SameReplacement, Planned;
    forall k | 0 <= k < |cfg|
      ensures SameEntry(previous, cfg, kept, added, k) && SameReplacement(previous, cfg, kept, added, retired, k)
    {
      KeptIsTheSame(previous, cfg, kept, added, retired, k);
      ReplacementIsTheSame(previous, cfg, kept, added, retired, k);
    }
    forall i | 0 <= i < |previous| ensures SameFate(previous, cfg, retired, i) {
      RetiredIsTheSame(previous, cfg, kept, added, retired, i);
    }
  }
}
