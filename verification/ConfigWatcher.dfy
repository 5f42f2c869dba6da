/**
 The sidecar's configuration watcher: a stat, then a read, with a writer free to act
 in between. The content of a file stands for its digest.
 */
module ConfigWatcher {
  import opened Wrappers

  datatype Version = Version(stamp: string, content: string)

  datatype Watch = Watch(stamp: Option<string>, applied: Option<string>, rejected: Option<string>)

  /** What a look has to say: a signal to send, or a render that does not load. */
  datatype News = Reloaded(content: string) | Reported(content: string)

  // ---------------------------------------------------------------------
  // The two halves of a look; a stat or read that fails sees nothing
  // ---------------------------------------------------------------------

  function StampOf(seen: Option<Version>): Option<string> {
    if seen.Some? then Some(seen.value.stamp) else None
  }

  function StartSection(stamp: Option<string>, seen: Option<Version>): Watch {
    Watch(stamp, if seen.Some? then Some(seen.value.content) else None, None)
  }

  predicate WorthReading(w: Watch, stamp: Option<string>) {
    stamp.Some? && stamp != w.stamp
  }

  function ReadSection(
      w: Watch, stamp: Option<string>, seen: Option<Version>, loads: string -> bool): (Watch, Option<News>)
  {
    if seen.None? then (w, None)
    else
      var content := seen.value.content;
      var w' := w.(stamp := stamp);
      if Some(content) == w.applied then (w', None)
      else if !loads(content) then
        if Some(content) == w.rejected then (w', None) else (w'.(rejected := Some(content)), Some(Reported(content)))
      else
        (w'.(applied := Some(content), rejected := None), Some(Reloaded(content)))
  }

  /**
   A look that reads says so exactly if there is something to say: loadable content the
   gatekeeper was not given last is applied and signalled, a render that does not load is
   reported unless it was the last one reported; either way the stamp is remembered.
   */
  lemma LooksSay(w: Watch, stamp: Option<string>, v: Version, loads: string -> bool)
    ensures var (w', news) := ReadSection(w, stamp, Some(v), loads);
            && w'.stamp == stamp
            && (news == Some(Reloaded(v.content)) <==> w.applied != Some(v.content) && loads(v.content))
            && (news == Some(Reported(v.content)) <==>
                w.applied != Some(v.content) && !loads(v.content) && w.rejected != Some(v.content))
            && (news.Some? ==> news.value.content == v.content)
            && w'.applied == (if loads(v.content) then Some(v.content) else w.applied)
    ensures ReadSection(w, stamp, None, loads) == (w, None)
  {
  }

  // ---------------------------------------------------------------------
  // Interleavings
  // ---------------------------------------------------------------------

  datatype Phase = Boot | Booting(stamp: Option<string>) | Idle | Looking(stamp: Option<string>)

  /**
   `history` is every state the file has been in, the last one current; None is an
   absent file. `lookedAt`, `statAt` and `readAt` say which of them the stat in hand,
   and the stat and read last acted on, met. `given` is what the gatekeeper was told
   to run, in order, and `givenAt` where the last of it was read.
   */
  datatype World = World(
    history: seq<Option<Version>>,
    watch: Watch,
    phase: Phase,
    lookedAt: nat,
    statAt: nat,
    readAt: nat,
    started: bool,
    given: seq<string>,
    givenAt: nat,
    news: seq<News>)

  datatype Step = Write(file: Option<Version>) | Stat(fails: bool) | Read(fails: bool)

  function Initial(file: Option<Version>): World {
    World([file], Watch(None, None, None), Boot, 0, 0, 0, false, [], 0, [])
  }

  function Now(w: World): nat
    requires w.history != []
  {
    |w.history| - 1
  }

  function Seen(w: World, fails: bool): Option<Version>
    requires w.history != []
  {
    if fails then None else w.history[Now(w)]
  }

  /** One atomic step; a step that is not enabled changes nothing. */
  function Apply(w: World, step: Step, loads: string -> bool): (w': World)
    requires w.history != []
    ensures w.history <= w'.history
  {
    match step
    case Write(file) => w.(history := w.history + [file])
    case Stat(fails) =>
      var stamp := StampOf(Seen(w, fails));
      if w.phase.Boot? then w.(phase := Booting(stamp), lookedAt := Now(w))
      else if w.phase.Idle? && WorthReading(w.watch, stamp) then w.(phase := Looking(stamp), lookedAt := Now(w))
      else w
    case Read(fails) =>
      var seen := Seen(w, fails);
      if w.phase.Booting? then
        var watch := StartSection(w.phase.stamp, seen);
        w.(watch := watch, phase := Idle, statAt := w.lookedAt, readAt := Now(w),
           started := seen.Some? || watch.stamp.None?,
           given := if seen.Some? then [seen.value.content] else [], givenAt := Now(w))
      else if w.phase.Looking? then
        var (watch, news) := ReadSection(w.watch, w.phase.stamp, seen, loads);
        var w' := w.(watch := watch, phase := Idle);
        if seen.None? then w'
        else Told(w'.(statAt := w.lookedAt, readAt := Now(w), started := true), news)
      else w
  }

  function Told(w: World, news: Option<News>): World
    requires w.history != []
  {
    if news.None? then w
    else if news.value.Reported? then w.(news := w.news + [news.value])
    else w.(news := w.news + [news.value], given := w.given + [news.value.content], givenAt := Now(w))
  }

  function Run(w: World, steps: seq<Step>, loads: string -> bool): (w': World)
    requires w.history != []
    ensures w.history <= w'.history
    decreases |steps|
  {
    if steps == [] then w else Run(Apply(w, steps[0], loads), steps[1..], loads)
  }

  // ---------------------------------------------------------------------
  // What every run keeps
  // ---------------------------------------------------------------------

  /**
   The stamp remembered is that of a version met no later than the content last read, and
   that content was dealt with.
   */
  ghost predicate DealtWith(w: World, loads: string -> bool) {
    w.phase.Idle? || w.phase.Looking? ==>
      w.started && w.watch.stamp.Some? ==>
        && w.statAt <= w.readAt < |w.history|
        && w.history[w.statAt].Some? && w.history[w.statAt].value.stamp == w.watch.stamp.value
        && w.history[w.readAt].Some?
        && (w.watch.applied == Some(w.history[w.readAt].value.content) || !loads(w.history[w.readAt].value.content))
  }

  ghost predicate InHand(w: World) {
    w.phase.Booting? || w.phase.Looking? ==>
      w.lookedAt < |w.history| && (w.phase.Looking? ==> w.phase.stamp.Some?) &&
      (w.phase.stamp.Some? ==> w.history[w.lookedAt].Some? && w.history[w.lookedAt].value.stamp == w.phase.stamp.value)
  }

  /** Every signal tells the gatekeeper something loadable that it was not running, and is paid for by a write. */
  ghost predicate SignalsAreNews(w: World, loads: string -> bool) {
    && (forall i | 0 <= i < |w.given| - 1 :: w.given[i] != w.given[i + 1])
    && (forall n | n in w.news :: loads(n.content) <==> n.Reloaded?)
    && w.watch.applied == (if w.given == [] then None else Some(w.given[|w.given| - 1]))
    && w.givenAt < |w.history| && |w.given| <= w.givenAt + 1
    && (w.given != [] ==> w.history[w.givenAt].Some? && w.history[w.givenAt].value.content == w.given[|w.given| - 1])
    && (w.phase.Boot? || w.phase.Booting? ==> w.given == [] && w.news == [] && w.watch == Watch(None, None, None))
  }

  /** No two reports in a row are of the same render. */
  ghost predicate ReportsAreNews(w: World) {
    && (forall i | 0 <= i < |w.news| - 1 :: w.news[i] != w.news[i + 1])
    && (w.news != [] ==>
          var last := w.news[|w.news| - 1];
          if last.Reported? then w.watch.rejected == Some(last.content)
          else w.watch.rejected.None? && w.watch.applied == Some(last.content))
    && (w.news == [] ==> w.watch.rejected.None?)
  }

  ghost predicate Sound(w: World, loads: string -> bool) {
    w.history != [] && DealtWith(w, loads) && InHand(w) && SignalsAreNews(w, loads) && ReportsAreNews(w)
  }

  lemma ReadDealsWith(w: World, fails: bool, loads: string -> bool)
    requires Sound(w, loads)
    ensures var w' := Apply(w, Read(fails), loads); DealtWith(w', loads) && InHand(w')
  {
    hide SignalsAreNews, ReportsAreNews;
  }

  lemma TellingKeepsSignals(w: World, news: Option<News>, loads: string -> bool)
    requires w.history != [] && !w.phase.Boot? && !w.phase.Booting? && w.givenAt < |w.history| &&
              |w.given| <= w.givenAt + 1
    requires forall i | 0 <= i < |w.given| - 1 :: w.given[i] != w.given[i + 1]
    requires forall n | n in w.news :: loads(n.content) <==> n.Reloaded?
    requires w.given != [] ==>
              w.history[w.givenAt].Some? && w.history[w.givenAt].value.content == w.given[|w.given| - 1]
    requires news.Some? ==> (loads(news.value.content) <==> news.value.Reloaded?)
    requires news.Some? && news.value.Reloaded? ==>
               && (w.given != [] ==> w.given[|w.given| - 1] != news.value.content)
               && w.history[Now(w)].Some? && w.history[Now(w)].value.content == news.value.content
    requires var told := Told(w, news);
             w.watch.applied == if told.given == [] then None else Some(told.given[|told.given| - 1])
    ensures SignalsAreNews(Told(w, news), loads)
  {
  }

  lemma ReadSignalsNews(w: World, fails: bool, loads: string -> bool)
    requires Sound(w, loads)
    ensures SignalsAreNews(Apply(w, Read(fails), loads), loads)
  {
    hide DealtWith, ReportsAreNews, InHand;
    var seen := Seen(w, fails);
    if w.phase.Looking? && seen.Some? {
      var (watch, news) := ReadSection(w.watch, w.phase.stamp, seen, loads);
      var read := w.(watch := watch, phase := Idle, statAt := w.lookedAt, readAt := Now(w), started := true);
      TellingKeepsSignals(read, news, loads);
    }
  }

  lemma ReadReportsNews(w: World, fails: bool, loads: string -> bool)
    requires Sound(w, loads)
    ensures ReportsAreNews(Apply(w, Read(fails), loads))
  {
    hide DealtWith, InHand;
    var seen := Seen(w, fails);
    if w.phase.Looking? && seen.Some? {
      var (watch, news) := ReadSection(w.watch, w.phase.stamp, seen, loads);
      var read := w.(watch := watch, phase := Idle, statAt := w.lookedAt, readAt := Now(w), started := true);
      TellingKeepsReports(read, news);
    }
  }

  lemma TellingKeepsReports(w: World, news: Option<News>)
    requires w.history != [] && forall i | 0 <= i < |w.news| - 1 :: w.news[i] != w.news[i + 1]
    requires news.Some? && w.news != [] ==> w.news[|w.news| - 1] != news.value
    requires var told := Told(w, news).news;
             if told == [] then w.watch.rejected.None?
             else
               var last := told[|told| - 1];
               if last.Reported? then w.watch.rejected == Some(last.content)
               else w.watch.rejected.None? && w.watch.applied == Some(last.content)
    ensures ReportsAreNews(Told(w, news))
  {
  }

  lemma ReadKeepsSound(w: World, fails: bool, loads: string -> bool)
    requires Sound(w, loads)
    ensures Sound(Apply(w, Read(fails), loads), loads)
  {
    ReadDealsWith(w, fails, loads);
    ReadSignalsNews(w, fails, loads);
    ReadReportsNews(w, fails, loads);
    hide DealtWith, InHand, SignalsAreNews, ReportsAreNews;
  }

  lemma StepKeepsSound(w: World, step: Step, loads: string -> bool)
    requires Sound(w, loads)
    ensures Sound(Apply(w, step, loads), loads)
  {
    match step
    case Write(_) =>
    case Stat(_) =>
    case Read(fails) => ReadKeepsSound(w, fails, loads);
  }

  /** However the writer interleaves. */
  lemma {:induction false} EveryRunIsSound(w: World, steps: seq<Step>, loads: string -> bool)
    requires Sound(w, loads)
    ensures Sound(Run(w, steps, loads), loads)
    decreases |steps|
  {
    if steps != [] {
      StepKeepsSound(w, steps[0], loads);
      EveryRunIsSound(Apply(w, steps[0], loads), steps[1..], loads);
    }
  }

  // ---------------------------------------------------------------------
  // No lost update
  // ---------------------------------------------------------------------

  /** If the remembered stamp is the file's own, the gatekeeper has its content, or it is content that does not load. */
  ghost predicate NothingLost(w: World, loads: string -> bool)
    requires w.history != []
  {
    var now := w.history[Now(w)];
    w.started && w.phase.Idle? && now.Some? && w.watch.stamp == Some(now.value.stamp) ==>
      w.watch.applied == Some(now.value.content) || !loads(now.value.content)
  }

  /** Between two moments with the same stamp, loadable content is not replaced. */
  ghost predicate StampsTell(history: seq<Option<Version>>, loads: string -> bool) {
    forall i, j, k | 0 <= i <= j <= k < |history| && history[i].Some? && history[j].Some? && history[k].Some? ::
      history[i].value.stamp == history[k].value.stamp && loads(history[k].value.content) ==>
        history[j].value.content == history[k].value.content
  }

  lemma SoundLosesNothing(w: World, loads: string -> bool)
    requires Sound(w, loads) && StampsTell(w.history, loads)
    ensures NothingLost(w, loads)
  {
  }

  lemma StampsTellPrefix(history: seq<Option<Version>>, prefix: seq<Option<Version>>, loads: string -> bool)
    requires StampsTell(history, loads) && prefix <= history
    ensures StampsTell(prefix, loads)
  {
  }

  function Writes(files: seq<Option<Version>>): (steps: seq<Step>)
    ensures |steps| == |files|
  {
    seq(|files|, i requires 0 <= i < |files| => Write(files[i]))
  }

  lemma {:induction false} RunWrites(w: World, files: seq<Option<Version>>, rest: seq<Step>, loads: string -> bool)
    requires w.history != []
    ensures Run(w, Writes(files) + rest, loads) == Run(w.(history := w.history + files), rest, loads)
    decreases |files|
  {
    if files == [] {
      assert Writes(files) + rest == rest && w.history + files == w.history;
    } else {
      var steps := Writes(files) + rest;
      var w' := w.(history := w.history + [files[0]]);
      assert Apply(w, steps[0], loads) == w';
      assert steps[1..] == Writes(files[1..]) + rest;
      RunWrites(w', files[1..], rest, loads);
      assert w.history + [files[0]] + files[1..] == w.history + files;
    }
  }

  /** A start whose stat meets version i and whose read meets version j, and then nothing but writes up to version k. */
  function Schedule(h: seq<Option<Version>>, i: nat, j: nat, k: nat): seq<Step>
    requires i <= j <= k < |h|
  {
    Writes(h[1..i + 1]) + ([Stat(false)] + (Writes(h[i + 1..j + 1]) + ([Read(false)] + (Writes(h[j + 1..k + 1]) + []))))
  }

  lemma RunOne(w: World, step: Step, rest: seq<Step>, loads: string -> bool)
    requires w.history != []
    ensures Run(w, [step] + rest, loads) == Run(Apply(w, step, loads), rest, loads)
  {
    hide Apply;
    assert ([step] + rest)[1..] == rest;
  }

  lemma RunSchedule(h: seq<Option<Version>>, i: nat, j: nat, k: nat, loads: string -> bool)
    requires i <= j <= k < |h| && h[i].Some? && h[j].Some?
    ensures var w := Run(Initial(h[0]), Schedule(h, i, j, k), loads);
            && w.history == h[..k + 1] && w.phase.Idle? && w.started
            && w.watch == Watch(Some(h[i].value.stamp), Some(h[j].value.content), None)
  {
    hide Run, Writes, Apply;
    var toEnd := Writes(h[j + 1..k + 1]) + [];
    var toRead := Writes(h[i + 1..j + 1]) + ([Read(false)] + toEnd);
    var w0 := Initial(h[0]);
    WritesUpTo(w0, h, 0, i, [Stat(false)] + toRead, loads);
    var w1 := w0.(history := h[..i + 1]);
    RunOne(w1, Stat(false), toRead, loads);
    StartAtRead(h, i, j, loads);
    var w2 := Apply(w1, Stat(false), loads);
    WritesUpTo(w2, h, i, j, [Read(false)] + toEnd, loads);
    var w3 := w2.(history := h[..j + 1]);
    RunOne(w3, Read(false), toEnd, loads);
    var w4 := Apply(w3, Read(false), loads);
    WritesUpTo(w4, h, j, k, [], loads);
    RunNone(w4.(history := h[..k + 1]), loads);
  }

  /** The writer goes on from version i to version j. */
  lemma WritesUpTo(w: World, h: seq<Option<Version>>, i: nat, j: nat, rest: seq<Step>, loads: string -> bool)
    requires i <= j < |h| && w.history == h[..i + 1]
    ensures Run(w, Writes(h[i + 1..j + 1]) + rest, loads) == Run(w.(history := h[..j + 1]), rest, loads)
  {
    hide Run, Writes;
    RunWrites(w, h[i + 1..j + 1], rest, loads);
    assert h[..i + 1] + h[i + 1..j + 1] == h[..j + 1];
  }

  lemma RunNone(w: World, loads: string -> bool)
    requires w.history != []
    ensures Run(w, [], loads) == w
  {
  }

  lemma StartAtRead(h: seq<Option<Version>>, i: nat, j: nat, loads: string -> bool)
    requires i <= j < |h| && h[i].Some? && h[j].Some?
    ensures var w2 := Apply(Initial(h[0]).(history := h[..i + 1]), Stat(false), loads);
            && w2.history == h[..i + 1]
            && var w4 := Apply(w2.(history := h[..j + 1]), Read(false), loads);
               && w4.history == h[..j + 1] && w4.phase.Idle? && w4.started
               && w4.watch == Watch(Some(h[i].value.stamp), Some(h[j].value.content), None)
  {
  }

  /**
   No update is ever lost, at any point of any schedule around this history of the
   file, exactly when stamps tell versions apart in it.
   */
  lemma NoLostUpdateIff(h: seq<Option<Version>>, loads: string -> bool)
    requires h != []
    ensures StampsTell(h, loads) <==>
            forall steps | Run(Initial(h[0]), steps, loads).history <= h ::
                NothingLost(Run(Initial(h[0]), steps, loads), loads)
  {
    if StampsTell(h, loads) {
      forall steps | Run(Initial(h[0]), steps, loads).history <= h
        ensures NothingLost(Run(Initial(h[0]), steps, loads), loads)
      {
        NothingIsLost(h, steps, loads);
      }
    } else {
      SomethingIsLost(h, loads);
    }
  }

  lemma NothingIsLost(h: seq<Option<Version>>, steps: seq<Step>, loads: string -> bool)
    requires h != [] && StampsTell(h, loads) && Run(Initial(h[0]), steps, loads).history <= h
    ensures NothingLost(Run(Initial(h[0]), steps, loads), loads)
  {
    hide Run, NothingLost, StampsTell;
    EveryRunIsSound(Initial(h[0]), steps, loads);
    var w := Run(Initial(h[0]), steps, loads);
    StampsTellPrefix(h, w.history, loads);
    SoundLosesNothing(w, loads);
  }

  lemma SomethingIsLost(h: seq<Option<Version>>, loads: string -> bool)
    requires h != [] && !StampsTell(h, loads)
    ensures exists steps :: Run(Initial(h[0]), steps, loads).history <= h &&
              !NothingLost(Run(Initial(h[0]), steps, loads), loads)
  {
    var i, j, k :| 0 <= i <= j <= k < |h| && h[i].Some? && h[j].Some? && h[k].Some? &&
      h[i].value.stamp == h[k].value.stamp && loads(h[k].value.content) && h[j].value.content != h[k].value.content;
    hide Run, Schedule, Initial, StampsTell;
    RunSchedule(h, i, j, k, loads);
    LostAt(Run(Initial(h[0]), Schedule(h, i, j, k), loads), h, i, j, k, loads);
    hide NothingLost;
  }

  lemma LostAt(w: World, h: seq<Option<Version>>, i: nat, j: nat, k: nat, loads: string -> bool)
    requires i <= j <= k < |h| && h[i].Some? && h[j].Some? && h[k].Some?
    requires h[i].value.stamp == h[k].value.stamp && loads(h[k].value.content) &&
              h[j].value.content != h[k].value.content
    requires w.history == h[..k + 1] && w.phase.Idle? && w.started
    requires w.watch == Watch(Some(h[i].value.stamp), Some(h[j].value.content), None)
    ensures w.history <= h && !NothingLost(w, loads)
  {
    assert w.history[Now(w)] == h[k];
  }

  lemma LookDealsWithIt(w: World, loads: string -> bool)
    requires w.history != [] && NothingLost(w, loads) && w.started && w.phase.Idle? && w.history[Now(w)].Some?
    ensures var w' := Apply(Apply(w, Stat(false), loads), Read(false), loads);
            && w'.history == w.history && w'.started && w'.phase.Idle?
            && w'.watch.stamp == StampOf(w.history[Now(w)])
            && (w'.watch.applied == Some(w.history[Now(w)].value.content) || !loads(w.history[Now(w)].value.content))
  {
  }

  /** The last write is acted on by the first look that begins after it and succeeds. */
  lemma OneLookCatchesUp(w: World, loads: string -> bool)
    requires Sound(w, loads) && StampsTell(w.history, loads) && w.started && w.phase.Idle? && w.history[Now(w)].Some?
    ensures var w' := Run(w, [Stat(false), Read(false)], loads);
            && w'.history == w.history && w'.started && w'.phase.Idle?
            && w'.watch.stamp == StampOf(w.history[Now(w)])
            && (w'.watch.applied == Some(w.history[Now(w)].value.content) || !loads(w.history[Now(w)].value.content))
  {
    SoundLosesNothing(w, loads);
    LookDealsWithIt(w, loads);
    hide Sound, StampsTell, Run, NothingLost, Apply;
    var w1 := Apply(w, Stat(false), loads);
    var w2 := Apply(w1, Read(false), loads);
    RunOne(w, Stat(false), [Read(false)], loads);
    assert [Read(false)] == [Read(false)] + [] && [Stat(false)] + [Read(false)] == [Stat(false), Read(false)];
    RunOne(w1, Read(false), [], loads);
    RunNone(w2, loads);
  }

  predicate NoWrites(steps: seq<Step>) {
    forall i | 0 <= i < |steps| :: !steps[i].Write?
  }

  /** With the file's stamp remembered and nobody writing, no look has anything to say. */
  lemma {:induction false} QuietUntilTheNextWrite(w: World, steps: seq<Step>, loads: string -> bool)
    requires w.history != [] && w.phase.Idle? && w.watch.stamp == StampOf(w.history[Now(w)])
    requires NoWrites(steps)
    ensures Run(w, steps, loads) == w
    decreases |steps|
  {
    if steps != [] {
      assert Apply(w, steps[0], loads) == w;
      QuietUntilTheNextWrite(w, steps[1..], loads);
    }
  }

  /**
   However often the file is looked at, the gatekeeper is never told more versions than
   there were writes, never the same one twice running.
   */
  lemma NoSignalWithoutNews(file: Option<Version>, steps: seq<Step>, loads: string -> bool)
    ensures var w := Run(Initial(file), steps, loads);
            && |w.given| <= |w.history|
            && (forall i | 0 <= i < |w.given| - 1 :: w.given[i] != w.given[i + 1])
            && (forall n | n in w.news :: n.Reloaded? <==> loads(n.content))
            && (forall i | 0 <= i < |w.news| - 1 :: w.news[i] != w.news[i + 1])
  {
    EveryRunIsSound(Initial(file), steps, loads);
  }

  /**
   A start whose stat succeeds and whose read does not remembers the version as dealt
   with: until somebody writes again the watcher says nothing, whatever the file holds.
   */
  lemma StartThatCannotReadIsDeaf(v: Version, steps: seq<Step>, loads: string -> bool)
    requires NoWrites(steps)
    ensures var w := Run(Initial(Some(v)), [Stat(false), Read(true)] + steps, loads);
            w.watch == Watch(Some(v.stamp), None, None) && w.given == [] && w.news == []
  {
    var w0 := Initial(Some(v));
    var w1 := Apply(w0, Stat(false), loads);
    var w2 := Apply(w1, Read(true), loads);
    var all := [Stat(false), Read(true)] + steps;
    assert all[1..][0] == Read(true) && all[1..][1..] == steps;
    assert Run(w0, all, loads) == Run(w1, all[1..], loads) == Run(w2, steps, loads);
    QuietUntilTheNextWrite(w2, steps, loads);
  }

  /** The steps of a start and of a look, one after the other. */
  lemma RunTwo(w: World, first: Step, second: Step, rest: seq<Step>, loads: string -> bool)
    requires w.history != []
    ensures Run(w, [first, second] + rest, loads) == Run(Apply(Apply(w, first, loads), second, loads), rest, loads)
  {
    hide Apply;
    assert [first, second] + rest == [first] + ([second] + rest);
    RunOne(w, first, [second] + rest, loads);
    RunOne(Apply(w, first, loads), second, rest, loads);
  }

  /**
   Loadable content that is there at the start and that nobody writes again reaches the
   gatekeeper, in some continuation, exactly when the start did not stat it and then fail
   to read it.
   */
  lemma StartLosesIff(v: Version, statFails: bool, readFails: bool, loads: string -> bool)
    requires loads(v.content)
    ensures (exists steps ::
               NoWrites(steps) &&
               Run(Initial(Some(v)), [Stat(statFails), Read(readFails)] + steps, loads).watch.applied ==
                   Some(v.content))
            <==> statFails || !readFails
  {
    var start := [Stat(statFails), Read(readFails)];
    var w2 := Apply(Apply(Initial(Some(v)), Stat(statFails), loads), Read(readFails), loads);
    if !statFails && readFails {
      forall steps | NoWrites(steps)
        ensures Run(Initial(Some(v)), start + steps, loads).watch.applied == None
      {
        StartThatCannotReadIsDeaf(v, steps, loads);
      }
    } else {
      var steps := if readFails then [Stat(false), Read(false)] + [] else [];
      RunTwo(Initial(Some(v)), Stat(statFails), Read(readFails), steps, loads);
      if readFails {
        RunTwo(w2, Stat(false), Read(false), [], loads);
      }
      assert Run(Initial(Some(v)), start + steps, loads).watch.applied == Some(v.content);
    }
  }

  // ---------------------------------------------------------------------
  // The object
  // ---------------------------------------------------------------------

  class Watcher {
    var stamp: Option<string>
    var applied: Option<string>
    var rejected: Option<string>

    ghost function State(): Watch
      reads this
    {
      Watch(stamp, applied, rejected)
    }

    constructor ()
      ensures State() == Watch(None, None, None)
    {
      stamp, applied, rejected := None, None, None;
    }

    /** The parameters are what the stat and the read meet. */
    method Start(atStat: Option<Version>, atRead: Option<Version>)
      modifies this
      ensures State() == StartSection(StampOf(atStat), atRead).(rejected := old(rejected))
    {
      stamp := StampOf(atStat);
      applied := None;
      if atRead.Some? {
        applied := Some(atRead.value.content);
      }
    }

    method Changed(atStat: Option<Version>, atRead: Option<Version>, loads: string -> bool)
      returns (reload: bool, why: Option<string>)
      modifies this
      ensures !WorthReading(old(State()), StampOf(atStat)) ==> State() == old(State()) && !reload && why.None?
      ensures WorthReading(old(State()), StampOf(atStat)) ==>
                var (state, news) := ReadSection(old(State()), StampOf(atStat), atRead, loads);
                && State() == state
                && (atRead.None? ==> unchanged(this) && !reload && why.None?)
                && (atRead.Some? ==>
                      var content := atRead.value.content;
                      && stamp == StampOf(atStat)
                      && (reload <==> old(applied) != Some(content) && loads(content))
                      && (why.Some? <==>
                          old(applied) != Some(content) && !loads(content) && old(rejected) != Some(content))
                      && applied == (if reload then Some(content) else old(applied)))
                && (reload <==> news.Some? && news.value.Reloaded?)
                && why == if news.Some? && news.value.Reported? then Some(news.value.content) else None
    {
      reload, why := false, None;
      if atStat.None? || Some(atStat.value.stamp) == stamp {
        return;
      }
      if atRead.None? {
        return;
      }
      stamp := Some(atStat.value.stamp);
      var content := atRead.value.content;
      if Some(content) == applied {
        return;
      }
      if !loads(content) {
        if Some(content) == rejected {
          return;
        }
        rejected := Some(content);
        why := Some(content);
        return;
      }
      applied, rejected := Some(content), None;
      reload := true;
    }
  }
}
