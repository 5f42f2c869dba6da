/**
 The schedule of an endpoint's background re-attestation: the re-attest interval
 while it is admitted, a doubling backoff while it is denied. Durations are
 integers in the clock's unit.
 */
module AttestSchedule {
  import opened Wrappers

  /** What a verification left in force: nothing at all, an admission or a denial. */
  datatype Current = NoVerdict | Admitted | Denied

  const ON_DEMAND_RETRY: nat := 2_000_000_000
  const DENY_BACKOFF_MAX: nat := 30_000_000_000

  /** The first delay of the schedule; a positive override replaces the built-in one. */
  function FirstBackoff(override: int): nat {
    if override > 0 then override else ON_DEMAND_RETRY
  }

  function BackoffCeiling(override: int): nat {
    if override > 0 then override else DENY_BACKOFF_MAX
  }

  /** One call of the schedule: the next backoff and the delay it answers with. */
  function NextSection(backoff: nat, current: Current, override: int, interval: nat): (nat, nat) {
    if current != Denied then (FirstBackoff(override), interval)
    else (Min(backoff * 2, BackoffCeiling(override)), Min(backoff, interval))
  }

  class Schedule {
    const override: int
    const interval: nat
    var backoff: nat

    constructor (override: int, interval: nat)
      ensures this.override == override && this.interval == interval && backoff == FirstBackoff(override)
    {
      this.override, this.interval := override, interval;
      backoff := FirstBackoff(override);
    }

    method Next(current: Current) returns (delay: nat)
      modifies this
      ensures (backoff, delay) == NextSection(old(backoff), current, override, interval)
    {
      if current == NoVerdict || current == Admitted {
        backoff := FirstBackoff(override);
        return interval;
      }
      delay := Min(backoff, interval);
      backoff := Min(backoff * 2, BackoffCeiling(override));
    }

    /** The loop, given the verdict each of its verifications leaves in force. */
    method Delays(history: seq<Current>) returns (delays: seq<nat>)
      requires backoff == FirstBackoff(override)
      modifies this
      ensures delays == DelaysOf(history, override, interval)
    {
      delays := [];
      ghost var all := DelaysOf(history, override, interval);
      for i := 0 to |history|
        invariant backoff == BackoffAfter(history[..i], override)
        invariant delays == DelaysOf(history[..i], override, interval)
      {
        assert history[..i + 1][..i] == history[..i];
        var delay := Next(history[i]);
        delays := delays + [delay];
      }
      assert history[..|history|] == history;
    }
  }

  function BackoffAfter(history: seq<Current>, override: int): nat {
    if history == [] then FirstBackoff(override)
    else NextSection(BackoffAfter(history[..|history| - 1], override), history[|history| - 1], override, 0).0
  }

  /** The delay after each of the verdicts of a history. */
  function DelaysOf(history: seq<Current>, override: int, interval: nat): seq<nat> {
    if history == [] then []
    else
      var n := |history| - 1;
      DelaysOf(history[..n], override, interval)
        + [NextSection(BackoffAfter(history[..n], override), history[n], override, interval).1]
  }

  /** How many denials in a row a history ends with. */
  function DenialRun(history: seq<Current>): nat {
    if history == [] || history[|history| - 1] != Denied then 0
    else 1 + DenialRun(history[..|history| - 1])
  }

  /** The delay a denial gets that has k denials right before it. */
  function DeniedDelay(k: nat, override: int, interval: nat): nat {
    Min(Min(FirstBackoff(override) * Pow2(k), BackoffCeiling(override)), interval)
  }

  lemma FirstIsBelowTheCeiling(override: int)
    ensures Min(FirstBackoff(override) * Pow2(0), BackoffCeiling(override)) == FirstBackoff(override)
  {
    assert Pow2(0) == 1;
  }

  /** Capping before doubling and after is capping after. */
  lemma Doubled(b: nat, p: nat, ceiling: nat)
    ensures b * (2 * p) == 2 * (b * p)
    ensures Min(Min(b * p, ceiling) * 2, ceiling) == Min(b * (2 * p), ceiling)
  {
    var x := b * p;
    assert b * (2 * p) == 2 * x;
  }

  lemma {:induction false} BackoffIsDoubling(history: seq<Current>, override: int)
    ensures BackoffAfter(history, override) ==
            Min(FirstBackoff(override) * Pow2(DenialRun(history)), BackoffCeiling(override))
  {
    if history != [] {
      var init := history[..|history| - 1];
      BackoffIsDoubling(init, override);
      if history[|history| - 1] == Denied {
        Doubled(FirstBackoff(override), Pow2(DenialRun(init)), BackoffCeiling(override));
      } else {
        FirstIsBelowTheCeiling(override);
      }
    } else {
      FirstIsBelowTheCeiling(override);
    }
  }

  /** Every delay, in closed form, for every history of verdicts. */
  lemma {:induction false} DelayInClosedForm(history: seq<Current>, override: int, interval: nat, i: nat)
    requires i < |history|
    ensures |DelaysOf(history, override, interval)| == |history|
    ensures DelaysOf(history, override, interval)[i] ==
            if history[i] == Denied then DeniedDelay(DenialRun(history[..i]), override, interval) else interval
  {
    var n := |history| - 1;
    if n > 0 {
      DelayInClosedForm(history[..n], override, interval, if i < n then i else 0);
    }
    if i < n {
      assert history[..n][..i] == history[..i];
    } else {
      BackoffIsDoubling(history[..n], override);
    }
  }

  /**
   In numbers: 2 s doubled once per denial in the run, at most 30 s, at most the interval; a
   positive override is the only backoff.
   */
  lemma DelaysInNumbers(history: seq<Current>, override: int, interval: nat, i: nat)
    requires i < |history| && history[i] == Denied
    ensures |DelaysOf(history, override, interval)| == |history|
    ensures override <= 0 ==>
              DelaysOf(history, override, interval)[i] ==
              Min(Min(2_000_000_000 * Pow2(DenialRun(history[..i])), 30_000_000_000), interval)
    ensures override > 0 ==> DelaysOf(history, override, interval)[i] == Min(override, interval)
  {
    DelayInClosedForm(history, override, interval, i);
    var p := Pow2(DenialRun(history[..i]));
    if override > 0 {
      AtLeastItself(override, p);
    }
  }

  lemma AtLeastItself(b: nat, p: nat)
    requires p > 0
    ensures b * p >= b
  {
    assert b * p == b * (p - 1) + b;
  }

  lemma DelayGrows(k: nat, override: int, interval: nat)
    ensures DeniedDelay(k, override, interval) <= DeniedDelay(k + 1, override, interval)
  {
    Doubled(FirstBackoff(override), Pow2(k), BackoffCeiling(override));
  }

  /** Within a run of denials the delays never shrink, and no delay exceeds the re-attest interval. */
  lemma {:induction false} DenialsBackOff(history: seq<Current>, override: int, interval: nat, i: nat)
    requires i < |history|
    ensures |DelaysOf(history, override, interval)| == |history|
    ensures DelaysOf(history, override, interval)[i] <= interval
    ensures i > 0 && history[i - 1] == Denied && history[i] == Denied ==>
              DelaysOf(history, override, interval)[i - 1] <= DelaysOf(history, override, interval)[i]
  {
    DelayInClosedForm(history, override, interval, i);
    if i > 0 {
      DelayInClosedForm(history, override, interval, i - 1);
      if history[i - 1] == Denied {
        assert history[..i][..i - 1] == history[..i - 1];
        DelayGrows(DenialRun(history[..i - 1]), override, interval);
      }
    }
  }
}
