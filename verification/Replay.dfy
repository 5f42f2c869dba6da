/**
 The recorded start of a request body, and the views that read it: one for each
 attempt to send the request.
 */
module Replay {
  import opened Wrappers

  const REPLAY_BUFFER_LIMIT: nat := 64 * 1024

  // ---------------------------------------------------------------------
  // The recorded body
  // ---------------------------------------------------------------------

  /** `consumed` is how far the source itself has been read. */
  datatype BodyState = BodyState(consumed: nat, recorded: seq<Byte>, overflowed: bool)

  datatype ReadOutcome = ReadOutcome(body: BodyState, pos: nat, data: seq<Byte>)

  /**
   One read by the current view, whose position is `pos`, into a buffer of `len`
   bytes; `chunk` is how many the source delivers if it is asked.
   */
  function ReadSection(source: seq<Byte>, b: BodyState, pos: nat, len: nat, chunk: nat): ReadOutcome
    requires chunk <= len && b.consumed + chunk <= |source|
  {
    if pos < |b.recorded| then
      var n := Min(len, |b.recorded| - pos);
      ReadOutcome(b, pos + n, b.recorded[pos..pos + n])
    else
      var data := source[b.consumed..b.consumed + chunk];
      var b' := b.(consumed := b.consumed + chunk);
      if chunk == 0 || b.overflowed then
        ReadOutcome(b', pos, data)
      else if |b.recorded| + chunk > REPLAY_BUFFER_LIMIT then
        ReadOutcome(b'.(overflowed := true, recorded := []), pos, data)
      else
        ReadOutcome(b'.(recorded := b.recorded + data), pos + chunk, data)
  }

  /** Reads and new views of one body, in any order; views are numbered as they are opened. */
  datatype BodyWorld = BodyWorld(
    body: BodyState,
    pos: seq<nat>,
    delivered: seq<seq<Byte>>,
    openedClean: seq<bool>,
    openedAt: seq<nat>)

  datatype BodyStep = OpenView | ReadView(view: nat, len: nat, chunk: nat)

  function FreshBody(): BodyWorld {
    BodyWorld(BodyState(0, [], false), [], [], [], [])
  }

  /** A superseded view reads nothing: only the view opened last is served. */
  function ApplyBody(source: seq<Byte>, w: BodyWorld, step: BodyStep): BodyWorld {
    match step
    case OpenView =>
      w.(pos := w.pos + [0],
         delivered := w.delivered + [[]],
         openedClean := w.openedClean + [!w.body.overflowed],
         openedAt := w.openedAt + [w.body.consumed])
    case ReadView(v, len, chunk) =>
      if v + 1 != |w.pos| || v >= |w.delivered| || chunk > len || w.body.consumed + chunk > |source| then w
      else
        var out := ReadSection(source, w.body, w.pos[v], len, chunk);
        w.(body := out.body, pos := w.pos[v := out.pos], delivered := w.delivered[v := w.delivered[v] + out.data])
  }

  function RunBody(source: seq<Byte>, w: BodyWorld, steps: seq<BodyStep>): BodyWorld
    decreases |steps|
  {
    if steps == [] then w else RunBody(source, ApplyBody(source, w, steps[0]), steps[1..])
  }

  /** Where in the source the bytes delivered to view v begin. */
  function Origin(w: BodyWorld, v: nat): nat
    requires v < |w.openedClean| == |w.openedAt|
  {
    if w.openedClean[v] then 0 else w.openedAt[v]
  }

  ghost predicate Aligned(w: BodyWorld) {
    |w.pos| == |w.delivered| == |w.openedClean| == |w.openedAt|
  }

  ghost predicate Stretch(source: seq<Byte>, from: nat, data: seq<Byte>) {
    from + |data| <= |source| && data == source[from..from + |data|]
  }

  /** What the body has kept: everything read so far, or nothing once that is more than the limit. */
  ghost predicate Kept(source: seq<Byte>, b: BodyState) {
    && b.consumed <= |source|
    && |b.recorded| <= REPLAY_BUFFER_LIMIT
    && (if b.overflowed then b.recorded == [] && b.consumed > REPLAY_BUFFER_LIMIT
        else b.recorded == source[..b.consumed])
  }

  /** The position of the view being served, before and after an overflow. */
  ghost predicate InStep(b: BodyState, pos: nat, from: nat, delivered: nat) {
    if b.overflowed then from + delivered == b.consumed
    else from == 0 && pos == delivered && delivered <= b.consumed
  }

  lemma ReadKeepsStep(source: seq<Byte>, b: BodyState, pos: nat, len: nat, chunk: nat, from: nat, given: seq<Byte>)
    requires Kept(source, b) && Stretch(source, from, given) && InStep(b, pos, from, |given|)
    requires chunk <= len && b.consumed + chunk <= |source|
    ensures var out := ReadSection(source, b, pos, len, chunk);
            && Kept(source, out.body) && (b.overflowed ==> out.body.overflowed) && b.consumed <= out.body.consumed
            && Stretch(source, from, given + out.data)
            && InStep(out.body, out.pos, from, |given| + |out.data|)
  {
    var out := ReadSection(source, b, pos, len, chunk);
    if pos < |b.recorded| {
      SliceOfPrefix(source, b.consumed, pos, pos + |out.data|);
    } else {
      PrefixGrows(source, b.consumed, chunk);
    }
    StretchGrows(source, from, given, out.data);
  }

  lemma SliceOfPrefix(source: seq<Byte>, n: nat, from: nat, to: nat)
    requires from <= to <= n <= |source|
    ensures source[..n][from..to] == source[from..to]
  {
  }

  lemma PrefixGrows(source: seq<Byte>, n: nat, more: nat)
    requires n + more <= |source|
    ensures source[..n] + source[n..n + more] == source[..n + more]
  {
  }

  lemma StretchGrows(source: seq<Byte>, from: nat, given: seq<Byte>, data: seq<Byte>)
    requires Stretch(source, from, given) && Stretch(source, from + |given|, data)
    ensures Stretch(source, from, given + data)
  {
  }

  /** What view v has been given is the stretch of the source that begins at its origin. */
  ghost predicate DeliversFrom(source: seq<Byte>, w: BodyWorld, v: nat)
    requires Aligned(w) && v < |w.pos|
  {
    Stretch(source, Origin(w, v), w.delivered[v])
  }

  ghost predicate BodySafe(source: seq<Byte>, w: BodyWorld) {
    && Aligned(w)
    && Kept(source, w.body)
    && (forall v: nat | v < |w.pos| :: DeliversFrom(source, w, v))
    && (forall v: nat | v < |w.pos| :: !w.openedClean[v] ==> w.body.overflowed && w.openedAt[v] > REPLAY_BUFFER_LIMIT)
    && (|w.pos| > 0 ==> var v := |w.pos| - 1; InStep(w.body, w.pos[v], Origin(w, v), |w.delivered[v]|))
  }

  lemma ReadKeepsBodySafe(source: seq<Byte>, w: BodyWorld, v: nat, len: nat, chunk: nat)
    requires BodySafe(source, w)
    ensures BodySafe(source, ApplyBody(source, w, ReadView(v, len, chunk)))
  {
    var w' := ApplyBody(source, w, ReadView(v, len, chunk));
    if w' != w {
      assert DeliversFrom(source, w, v);
      ReadKeepsStep(source, w.body, w.pos[v], len, chunk, Origin(w, v), w.delivered[v]);
      forall u: nat | u < |w'.pos| ensures DeliversFrom(source, w', u) {
        assert DeliversFrom(source, w, u);
      }
    }
  }

  lemma OpenKeepsBodySafe(source: seq<Byte>, w: BodyWorld)
    requires BodySafe(source, w)
    ensures BodySafe(source, ApplyBody(source, w, OpenView))
  {
    var w' := ApplyBody(source, w, OpenView);
    forall u: nat | u < |w'.pos| ensures DeliversFrom(source, w', u) {
      if u < |w.pos| {
        assert DeliversFrom(source, w, u);
      }
    }
  }

  /** Whatever the chunk sizes, whoever tries to read, and whenever the buffer overflows. */
  lemma {:induction false} EveryRunDeliversTheSource(source: seq<Byte>, w: BodyWorld, steps: seq<BodyStep>)
    requires BodySafe(source, w)
    ensures BodySafe(source, RunBody(source, w, steps))
    decreases |steps|
  {
    if steps != [] {
      match steps[0] {
        case OpenView => OpenKeepsBodySafe(source, w);
        case ReadView(v, len, chunk) => ReadKeepsBodySafe(source, w, v, len, chunk);
      }
      EveryRunDeliversTheSource(source, ApplyBody(source, w, steps[0]), steps[1..]);
    }
  }

  /**
   A view opened before the body overflowed has delivered a prefix of the source, and the
   recording never outgrows its limit.
   */
  lemma CleanViewsDeliverAPrefix(source: seq<Byte>, steps: seq<BodyStep>, v: nat)
    requires v < |RunBody(source, FreshBody(), steps).pos|
    ensures var w := RunBody(source, FreshBody(), steps);
            && Aligned(w) && |w.body.recorded| <= REPLAY_BUFFER_LIMIT
            && (w.openedClean[v] <==> Origin(w, v) == 0)
            && (w.openedClean[v] ==> w.delivered[v] <= source)
  {
    EveryRunDeliversTheSource(source, FreshBody(), steps);
    var w := RunBody(source, FreshBody(), steps);
    assert DeliversFrom(source, w, v);
  }

  /**
   In numbers: the body has overflowed exactly when more than 65536 bytes of it were read,
   and keeps none of them then.
   */
  lemma OverflowsPast64KiB(source: seq<Byte>, steps: seq<BodyStep>)
    ensures var b := RunBody(source, FreshBody(), steps).body;
            && (b.overflowed <==> b.consumed > 65536)
            && b.consumed <= |source| && b.recorded == (if b.overflowed then [] else source[..b.consumed])
  {
    EveryRunDeliversTheSource(source, FreshBody(), steps);
  }

  // Which views deliver a prefix whatever the source holds

  /** The two runs differ at most in the values of the bytes. */
  ghost predicate SameShape(w: BodyWorld, x: BodyWorld) {
    && w.body.consumed == x.body.consumed && w.body.overflowed == x.body.overflowed
    && |w.body.recorded| == |x.body.recorded|
    && w.pos == x.pos && w.openedClean == x.openedClean && w.openedAt == x.openedAt
    && |w.delivered| == |x.delivered| && forall v | 0 <= v < |w.delivered| :: |w.delivered[v]| == |x.delivered[v]|
  }

  lemma StepKeepsShape(s: seq<Byte>, t: seq<Byte>, w: BodyWorld, x: BodyWorld, step: BodyStep)
    requires |s| == |t| && SameShape(w, x)
    ensures SameShape(ApplyBody(s, w, step), ApplyBody(t, x, step))
  {
  }

  /** What a run does depends on how long the source is, never on what is in it. */
  lemma {:induction false} RunsHaveOneShape(
      s: seq<Byte>, t: seq<Byte>, w: BodyWorld, x: BodyWorld, steps: seq<BodyStep>)
    requires |s| == |t| && SameShape(w, x)
    ensures SameShape(RunBody(s, w, steps), RunBody(t, x, steps))
    decreases |steps|
  {
    if steps != [] {
      StepKeepsShape(s, t, w, x, steps[0]);
      RunsHaveOneShape(s, t, ApplyBody(s, w, steps[0]), ApplyBody(t, x, steps[0]), steps[1..]);
    }
  }

  ghost predicate DeliversAPrefix(source: seq<Byte>, steps: seq<BodyStep>, v: nat) {
    var w := RunBody(source, FreshBody(), steps);
    v < |w.delivered| && w.delivered[v] <= source
  }

  /**
   What a view delivers is the start of the body, whatever the body holds, exactly when
   the view was opened before the body overflowed, or has delivered nothing.
   */
  lemma DeliversAPrefixIff(shape: seq<Byte>, steps: seq<BodyStep>, v: nat)
    requires v < |RunBody(shape, FreshBody(), steps).pos|
    ensures var w := RunBody(shape, FreshBody(), steps);
            && Aligned(w)
            && (w.openedClean[v] || w.delivered[v] == [] <==>
                forall source | |source| == |shape| :: DeliversAPrefix(source, steps, v))
  {
    EveryRunDeliversTheSource(shape, FreshBody(), steps);
    var w := RunBody(shape, FreshBody(), steps);
    if w.openedClean[v] || w.delivered[v] == [] {
      forall source | |source| == |shape| ensures DeliversAPrefix(source, steps, v) {
        RunsHaveOneShape(shape, source, FreshBody(), FreshBody(), steps);
        CleanViewsDeliverAPrefix(source, steps, v);
      }
    } else {
      MissesTheStart(shape, steps, v);
    }
  }

  /** A body whose only non-zero byte is the first one the view delivers. */
  lemma MissesTheStart(shape: seq<Byte>, steps: seq<BodyStep>, v: nat)
    requires var w := RunBody(shape, FreshBody(), steps);
             v < |w.pos| && Aligned(w) && !w.openedClean[v] && w.delivered[v] != []
    ensures exists source :: |source| == |shape| && !DeliversAPrefix(source, steps, v)
  {
    hide RunBody, Kept, InStep;
    var at := RunBody(shape, FreshBody(), steps).openedAt[v];
    var source: seq<Byte> := seq(|shape|, i => if i == at then 1 else 0);
    RunsHaveOneShape(shape, source, FreshBody(), FreshBody(), steps);
    EveryRunDeliversTheSource(source, FreshBody(), steps);
    var x := RunBody(source, FreshBody(), steps);
    assert DeliversFrom(source, x, v);
    assert x.delivered[v][0] == source[at] == 1 && source[0] == 0;
  }

  /** A read by the served view comes back empty only if nothing was asked for or nothing came. */
  lemma ReadsMakeProgress(source: seq<Byte>, b: BodyState, pos: nat, len: nat, chunk: nat)
    requires chunk <= len && b.consumed + chunk <= |source|
    ensures var out := ReadSection(source, b, pos, len, chunk);
            && |out.data| <= len
            && (out.data == [] ==> len == 0 || chunk == 0)
            && (pos < |b.recorded| ==>
                  out.body == b && out.data <= b.recorded[pos..] &&
                  (|out.data| == len || out.pos == |b.recorded|) && out.pos == pos + |out.data|)
            && (pos >= |b.recorded| ==>
                  out.data == source[b.consumed..b.consumed + chunk] && out.body.consumed == b.consumed + chunk &&
                  out.pos == if out.body.overflowed then pos else pos + |out.data|)
  {
  }

  /** Once a newer attempt has its view, a transport still draining the old one gets nothing more. */
  lemma {:induction false} SupersededViewsAreSilent(source: seq<Byte>, w: BodyWorld, steps: seq<BodyStep>, v: nat)
    requires Aligned(w) && v + 1 < |w.pos|
    ensures var w' := RunBody(source, w, steps);
            Aligned(w') && v + 1 < |w'.pos| && w'.delivered[v] == w.delivered[v]
    decreases |steps|
  {
    if steps != [] {
      SupersededViewsAreSilent(source, ApplyBody(source, w, steps[0]), steps[1..], v);
    }
  }

  /**
   Asking whether the body can be rewound and opening the second view are two lock
   holds. If the first attempt is still draining the body in between, the second
   view can miss the start of it.
   */
  lemma RewindableIsNotEnough(source: seq<Byte>)
    requires |source| == REPLAY_BUFFER_LIMIT + 2
    ensures var before := RunBody(source, FreshBody(), [OpenView]);
            var after := RunBody(source, before, [ReadView(0, REPLAY_BUFFER_LIMIT + 1, REPLAY_BUFFER_LIMIT + 1),
                                                  OpenView,
                                                  ReadView(1, 1, 1)]);
            && !before.body.overflowed
            && Aligned(after) && |after.pos| == 2 && after.delivered[1] == [source[REPLAY_BUFFER_LIMIT + 1]]
  {
    var w0 := FreshBody();
    var w1 := ApplyBody(source, w0, OpenView);
    var drain := ReadView(0, REPLAY_BUFFER_LIMIT + 1, REPLAY_BUFFER_LIMIT + 1);
    var w2 := ApplyBody(source, w1, drain);
    var w3 := ApplyBody(source, w2, OpenView);
    var w4 := ApplyBody(source, w3, ReadView(1, 1, 1));
    assert RunBody(source, w0, [OpenView]) == w1;
    assert [drain, OpenView, ReadView(1, 1, 1)][1..] == [OpenView, ReadView(1, 1, 1)];
    assert [OpenView, ReadView(1, 1, 1)][1..] == [ReadView(1, 1, 1)];
    assert RunBody(source, w3, [ReadView(1, 1, 1)]) == w4;
    assert RunBody(source, w2, [OpenView, ReadView(1, 1, 1)]) == w4;
    assert RunBody(source, w1, [drain, OpenView, ReadView(1, 1, 1)]) == w4;
  }

  // ---------------------------------------------------------------------
  // The objects
  // ---------------------------------------------------------------------

  datatype ReadError = Abandoned | SourceEnded

  class ReplayView {
    var pos: nat
    constructor ()
      ensures pos == 0
    {
      pos := 0;
    }
  }

  class ReplayBody {
    const source: seq<Byte>
    var consumed: nat
    var recorded: seq<Byte>
    var overflowed: bool
    var current: ReplayView?

    ghost function State(): BodyState
      reads this
    {
      BodyState(consumed, recorded, overflowed)
    }

    constructor (source: seq<Byte>)
      ensures this.source == source && State() == FreshBody().body && current == null
    {
      this.source := source;
      consumed, recorded, overflowed, current := 0, [], false, null;
    }

    method Rewindable() returns (yes: bool)
      ensures yes <==> !overflowed
    {
      yes := !overflowed;
    }

    method View() returns (view: ReplayView)
      modifies this`current
      ensures fresh(view) && view.pos == 0 && current == view
    {
      view := new ReplayView();
      current := view;
    }

    /** `chunk` and `ended` are the source's answer, should it be asked. */
    method Read(view: ReplayView, len: nat, chunk: nat, ended: bool) returns (data: seq<Byte>, err: Option<ReadError>)
      requires chunk <= len && consumed + chunk <= |source|
      modifies this`consumed, this`recorded, this`overflowed, view`pos
      ensures view != current ==>
                data == [] && err == Some(Abandoned) && State() == old(State()) && view.pos == old(view.pos)
      ensures view == current ==>
                ReadOutcome(State(), view.pos, data) == ReadSection(source, old(State()), old(view.pos), len, chunk)
      ensures view == current ==> err == if ended && old(view.pos >= |recorded|) then Some(SourceEnded) else None
    {
      if view != current {
        return [], Some(Abandoned);
      }
      if view.pos < |recorded| {
        var n := Min(len, |recorded| - view.pos);
        data := recorded[view.pos..view.pos + n];
        view.pos := view.pos + n;
        return data, None;
      }
      data := source[consumed..consumed + chunk];
      consumed := consumed + chunk;
      if chunk > 0 && !overflowed {
        if |recorded| + chunk > REPLAY_BUFFER_LIMIT {
          overflowed, recorded := true, [];
        } else {
          recorded := recorded + data;
          view.pos := view.pos + chunk;
        }
      }
      err := if ended then Some(SourceEnded) else None;
    }
  }
}
