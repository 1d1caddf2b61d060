/** What the two clocks guarantee over every trace of polls. */
module WatchdogTheorems {
  import opened Sequences
  import opened Watchdog

  // ----- the overall clock -----

  lemma {:induction false} ArmInstantStable(cfg: Config, start: nat, polls: seq<Poll>, more: seq<Poll>)
    requires ArmInstant(cfg, start, polls).Some?
    ensures ArmInstant(cfg, start, polls + more) == ArmInstant(cfg, start, polls)
  {
    if cfg.armWhen.Some? {
      assert (polls + more)[0] == polls[0] && (polls + more)[1..] == polls[1..] + more;
      if !ArmLine(cfg, polls[0]) {
        ArmInstantStable(cfg, start, polls[1..], more);
      }
    }
  }

  /** The overall deadline is set at most once and never moves; an absolute one is in force throughout. */
  lemma OverallNeverMoves(cfg: Config, start: nat, polls: seq<Poll>, more: seq<Poll>)
    ensures OverallDeadline(cfg, start, polls).Some? ==>
      OverallDeadline(cfg, start, polls + more) == OverallDeadline(cfg, start, polls)
    ensures cfg.overallDeadlineAbs.Some? ==> OverallDeadline(cfg, start, polls) == cfg.overallDeadlineAbs
  {
    if ArmInstant(cfg, start, polls).Some? {
      ArmInstantStable(cfg, start, polls, more);
    }
  }

  // ----- the per-test clock -----

  /** The poll yields a line that, once rewritten, the arming predicate accepts. */
  predicate SaysArm(cfg: Config, p: Poll) {
    p.received.Line? && cfg.armWhen.Some? && cfg.armWhen.value(cfg.demote(p.received.text))
  }

  predicate SaysReset(cfg: Config, p: Poll) {
    p.received.Line? && cfg.resetWhen.Some? && cfg.resetWhen.value(cfg.demote(p.received.text))
  }

  predicate ArmedBy(cfg: Config, polls: seq<Poll>, i: nat)
    requires i <= |polls|
  {
    cfg.armWhen.None? || exists j :: 0 <= j < i && SaysArm(cfg, polls[j])
  }

  /** Poll `i` delivers the arming line, or a reset line after arming. */
  predicate RefreshesAt(cfg: Config, polls: seq<Poll>, i: nat)
    requires i < |polls|
  {
    if ArmedBy(cfg, polls, i) then SaysReset(cfg, polls[i]) else SaysArm(cfg, polls[i])
  }

  lemma {:induction false} ArmedMeans(cfg: Config, start: nat, polls: seq<Poll>)
    ensures ArmInstant(cfg, start, polls).Some? <==> ArmedBy(cfg, polls, |polls|)
    decreases |polls|
  {
    if polls == [] {
    } else {
      var earlier, p := polls[..|polls| - 1], polls[|polls| - 1];
      assert polls == earlier + [p];
      ArmInstantStep(cfg, start, earlier, p);
      ArmedMeans(cfg, start, earlier);
      assert forall j :: 0 <= j < |earlier| ==> earlier[j] == polls[j];
      assert ArmedBy(cfg, polls, |polls|) <==> ArmedBy(cfg, earlier, |earlier|) || SaysArm(cfg, p);
    }
  }

  lemma RefreshesInPrefix(cfg: Config, polls: seq<Poll>, n: nat, i: nat)
    requires i < n <= |polls|
    ensures RefreshesAt(cfg, polls[..n], i) <==> RefreshesAt(cfg, polls, i)
  {
    assert forall j :: 0 <= j < n ==> polls[..n][j] == polls[j];
    assert ArmedBy(cfg, polls[..n], i) <==> ArmedBy(cfg, polls, i);
  }

  /** No poll from `from` on refreshes the per-test clock. */
  predicate QuietFrom(cfg: Config, polls: seq<Poll>, from: nat) {
    forall j :: from <= j < |polls| ==> !RefreshesAt(cfg, polls, j)
  }

  /**
   * The per-test clock runs from the last line that armed or reset it, and from the spawn when nothing
   * has and no arming line is needed.
   */
  lemma {:induction false} PerTestRunsFromLastRefresh(cfg: Config, start: nat, polls: seq<Poll>, i: nat)
    requires i < |polls| && RefreshesAt(cfg, polls, i) && QuietFrom(cfg, polls, i + 1)
    ensures polls[i].received.Line?
    ensures PerTestDeadline(cfg, start, polls) ==
      var t := polls[i].received.at + cfg.perTestTimeout.GetOr(0);
      if cfg.perTestTimeout.Some? && t <= cfg.lastInstant then Some(t) else None
    decreases |polls|
  {
    var n := |polls| - 1;
    var earlier, p := polls[..n], polls[n];
    assert polls == earlier + [p];
    LastRefreshStep(cfg, start, earlier, p);
    ArmInstantStep(cfg, start, earlier, p);
    ArmedMeans(cfg, start, earlier);
    ArmedInPrefix(cfg, polls, n);
    if i < n {
      RefreshesInPrefix(cfg, polls, n, i);
      QuietInPrefix(cfg, polls, i + 1);
      PerTestRunsFromLastRefresh(cfg, start, earlier, i);
      RefreshArms(cfg, start, earlier, i);
      assert !RefreshesAt(cfg, polls, n);
    }
  }

  lemma ArmedInPrefix(cfg: Config, polls: seq<Poll>, n: nat)
    requires n <= |polls|
    ensures ArmedBy(cfg, polls[..n], n) <==> ArmedBy(cfg, polls, n)
  {
    assert forall j :: 0 <= j < n ==> polls[..n][j] == polls[j];
  }

  lemma QuietInPrefix(cfg: Config, polls: seq<Poll>, from: nat)
    requires polls != [] && QuietFrom(cfg, polls, from)
    ensures QuietFrom(cfg, polls[..|polls| - 1], from)
  {
    var earlier := polls[..|polls| - 1];
    forall j | from <= j < |earlier|
      ensures !RefreshesAt(cfg, earlier, j)
    {
      RefreshesInPrefix(cfg, polls, |polls| - 1, j);
    }
  }

  lemma RefreshArms(cfg: Config, start: nat, polls: seq<Poll>, i: nat)
    requires i < |polls| && RefreshesAt(cfg, polls, i)
    ensures ArmInstant(cfg, start, polls).Some?
  {
    ArmedMeans(cfg, start, polls);
    if ArmedBy(cfg, polls, i) && cfg.armWhen.Some? {
      var j :| 0 <= j < i && SaysArm(cfg, polls[j]);
      assert 0 <= j < |polls| && SaysArm(cfg, polls[j]);
    }
  }

  lemma {:induction false} PerTestRunsFromSpawn(cfg: Config, start: nat, polls: seq<Poll>)
    requires QuietFrom(cfg, polls, 0)
    ensures PerTestDeadline(cfg, start, polls) ==
      var t := start + cfg.perTestTimeout.GetOr(0);
      if cfg.armWhen.None? && cfg.perTestTimeout.Some? && t <= cfg.lastInstant then Some(t) else None
    decreases |polls|
  {
    if polls != [] {
      var n := |polls| - 1;
      var earlier, p := polls[..n], polls[n];
      assert polls == earlier + [p];
      QuietInPrefix(cfg, polls, 0);
      PerTestRunsFromSpawn(cfg, start, earlier);
      LastRefreshStep(cfg, start, earlier, p);
      ArmInstantStep(cfg, start, earlier, p);
      ArmedMeans(cfg, start, earlier);
      ArmedInPrefix(cfg, polls, n);
      assert !RefreshesAt(cfg, polls, n);
    }
  }

  // ----- when the loop times out -----

  /** Before the arming line, only an absolute deadline can end the run. */
  lemma NothingFiresUnarmed(cfg: Config, start: nat, polls: seq<Poll>, i: nat)
    requires i < |polls| && cfg.armWhen.Some? && forall j :: 0 <= j < i ==> !SaysArm(cfg, polls[j])
    ensures !PerTestFires(cfg, start, polls, i)
    ensures OverallFires(cfg, start, polls, i) ==>
      cfg.overallDeadlineAbs.Some? && polls[i].now >= cfg.overallDeadlineAbs.value
  {
    ArmedMeans(cfg, start, polls[..i]);
    ArmedInPrefix(cfg, polls, i);
    LastRefreshWhenArmed(cfg, start, polls[..i]);
  }

  // ----- what a timeout reports -----

  function Previous(start: nat, polls: seq<Poll>, i: nat): nat
    requires i <= |polls|
  {
    if i == 0 then start else polls[i - 1].now
  }

  /** In turn `i` no clock read goes backwards, and the turn takes no longer than `gap`. */
  predicate OrderlyTurn(start: nat, polls: seq<Poll>, gap: nat, i: nat)
    requires i < |polls|
  {
    && Previous(start, polls, i) <= polls[i].now <= polls[i].later <= Previous(start, polls, i) + gap
    && (polls[i].received.Line? ==>
          polls[i].now <= polls[i].received.at && (i + 1 < |polls| ==> polls[i].received.at <= polls[i + 1].now))
  }

  predicate Clocked(start: nat, polls: seq<Poll>, gap: nat) {
    forall i :: 0 <= i < |polls| ==> OrderlyTurn(start, polls, gap, i)
  }

  /** The clocks' starting points at poll `i`: in the past, in order, and either fresh or unchanged. */
  lemma {:induction false} StartingPoints(cfg: Config, start: nat, polls: seq<Poll>, gap: nat, i: nat)
    requires Clocked(start, polls, gap) && i < |polls|
    ensures var arm, refresh := ArmInstant(cfg, start, polls[..i]), LastRefresh(cfg, start, polls[..i]);
      && (arm.Some? <==> refresh.Some?)
      && (arm.Some? ==> arm.value <= refresh.value <= polls[i].now)
      && (arm.Some? ==>
            arm.value >= Previous(start, polls, i) || (i > 0 && arm == ArmInstant(cfg, start, polls[..i - 1])))
      && (refresh.Some? ==>
            refresh.value >= Previous(start, polls, i) || (i > 0 && refresh == LastRefresh(cfg, start, polls[..i - 1])))
    decreases i
  {
    assert OrderlyTurn(start, polls, gap, i);
    if i > 0 {
      var earlier, p := polls[..i - 1], polls[i - 1];
      assert polls[..i] == earlier + [p];
      assert OrderlyTurn(start, polls, gap, i - 1);
      StartingPoints(cfg, start, polls, gap, i - 1);
      ArmInstantStep(cfg, start, earlier, p);
      LastRefreshStep(cfg, start, earlier, p);
    } else {
      assert polls[..0] == [];
    }
  }

  /** Nothing ended the loop before poll `i`. */
  predicate Undisturbed(cfg: Config, start: nat, polls: seq<Poll>, i: nat)
    requires i <= |polls|
  {
    forall j :: 0 <= j < i ==> !Ends(cfg, start, polls, j)
  }

  /** The per-test clock alone fired: time since the last refresh, the budget up to less than a turn more. */
  lemma PerTestElapsed(cfg: Config, start: nat, polls: seq<Poll>, gap: nat, i: nat)
    requires Clocked(start, polls, gap) && i < |polls| && Undisturbed(cfg, start, polls, i)
    requires PerTestFires(cfg, start, polls, i) && !OverallFires(cfg, start, polls, i)
    ensures var t, e := cfg.perTestTimeout.value, Elapsed(cfg, start, polls, i);
      t <= e && (t > 0 ==> e < t + gap)
  {
    StartingPoints(cfg, start, polls, gap, i);
    assert OrderlyTurn(start, polls, gap, i);
    if i > 0 {
      assert !Ends(cfg, start, polls, i - 1);
    }
  }

  /** The overall clock alone fired, without an absolute deadline: the same, measured from arming. */
  lemma OverallElapsed(cfg: Config, start: nat, polls: seq<Poll>, gap: nat, i: nat)
    requires Clocked(start, polls, gap) && i < |polls| && Undisturbed(cfg, start, polls, i)
    requires OverallFires(cfg, start, polls, i) && !PerTestFires(cfg, start, polls, i)
    requires cfg.overallDeadlineAbs.None?
    ensures var t, e := cfg.overallTimeout.value, Elapsed(cfg, start, polls, i);
      t <= e && (t > 0 ==> e < t + gap)
  {
    StartingPoints(cfg, start, polls, gap, i);
    assert OrderlyTurn(start, polls, gap, i);
    if i > 0 {
      assert !Ends(cfg, start, polls, i - 1);
    }
  }

  /** The overall clock alone fires at poll `i` of an orderly trace, on an absolute deadline with a budget. */
  predicate AnchoredCase(cfg: Config, start: nat, polls: seq<Poll>, gap: nat, i: nat) {
    && cfg.overallDeadlineAbs.Some? && cfg.overallTimeout.Some?
    && Clocked(start, polls, gap) && i < |polls| && Undisturbed(cfg, start, polls, i)
    && OverallFires(cfg, start, polls, i) && !PerTestFires(cfg, start, polls, i)
  }

  /** The report is then measured from the shared anchor, or from the spawn when there is no such instant. */
  lemma AnchoredElapsed(cfg: Config, start: nat, polls: seq<Poll>, gap: nat, i: nat)
    requires AnchoredCase(cfg, start, polls, gap, i)
    ensures var d, t, e := cfg.overallDeadlineAbs.value, cfg.overallTimeout.value, Elapsed(cfg, start, polls, i);
      && e == (if d >= t then t + (polls[i].now - d) else polls[i].now - start)
      && start <= polls[i].now && polls[i].now < (if d > start then d else start + 1) + gap
      && (d <= start ==> i == 0)
  {
    StartingPoints(cfg, start, polls, gap, i);
    assert OrderlyTurn(start, polls, gap, i);
    if i > 0 {
      assert !Ends(cfg, start, polls, i - 1);
      NowAfterStart(start, polls, gap, i - 1);
    }
    NowAfterStart(start, polls, gap, i);
  }

  /** Every report overshoots the budget by less than a turn. */
  ghost predicate NeverOverReports(cfg: Config, start: nat, gap: nat)
    requires cfg.overallTimeout.Some?
  {
    forall polls: seq<Poll>, i: nat :: AnchoredCase(cfg, start, polls, gap, i) ==>
      Elapsed(cfg, start, polls, i) < cfg.overallTimeout.value + gap
  }

  /** Every report reaches the budget. */
  ghost predicate NeverUnderReports(cfg: Config, start: nat, gap: nat)
    requires cfg.overallTimeout.Some?
  {
    forall polls: seq<Poll>, i: nat :: AnchoredCase(cfg, start, polls, gap, i) ==>
      Elapsed(cfg, start, polls, i) >= cfg.overallTimeout.value
  }

  /** The per-test clock's deadline at spawn keeps every late first poll from being the overall clock's alone. */
  predicate PerTestFirst(cfg: Config, start: nat, gap: nat)
    requires cfg.overallDeadlineAbs.Some?
  {
    var q := PerTestDeadline(cfg, start, []);
    q.Some? && (q.value <= start || q.value <= cfg.overallDeadlineAbs.value + gap)
  }

  /**
   * Reports on an absolute deadline never overshoot by a turn exactly when the deadline lies after the
   * spawn, or its anchor before the clock's origin, or the per-test clock always gets ahead of it.
   */
  lemma AnchoredUpperBound(cfg: Config, start: nat, gap: nat)
    requires cfg.overallDeadlineAbs.Some? && cfg.overallTimeout.Some?
    ensures var d, t := cfg.overallDeadlineAbs.value, cfg.overallTimeout.value;
      NeverOverReports(cfg, start, gap) <==> d > start || d < t || PerTestFirst(cfg, start, gap)
  {
    var d, t := cfg.overallDeadlineAbs.value, cfg.overallTimeout.value;
    if d > start || d < t || PerTestFirst(cfg, start, gap) {
      forall polls: seq<Poll>, i: nat | AnchoredCase(cfg, start, polls, gap, i)
        ensures Elapsed(cfg, start, polls, i) < t + gap
      {
        AnchoredElapsed(cfg, start, polls, gap, i);
        if i == 0 {
          assert polls[..0] == [];
        }
      }
    } else {
      LateSpawn(cfg, start, gap);
    }
  }

  /** A single poll, as late as it can be without the per-test clock firing too. */
  function LatePoll(cfg: Config, start: nat, gap: nat): seq<Poll> {
    var q := PerTestDeadline(cfg, start, []);
    var late := if q.Some? && 0 < q.value <= start + gap then q.value - 1 else start + gap;
    [Poll(false, late, Quiet, late)]
  }

  /** The deadline had passed at the spawn: one slow first turn makes the report overshoot. */
  lemma LateSpawn(cfg: Config, start: nat, gap: nat)
    requires cfg.overallDeadlineAbs.Some? && cfg.overallTimeout.Some?
    requires cfg.overallTimeout.value <= cfg.overallDeadlineAbs.value <= start && !PerTestFirst(cfg, start, gap)
    ensures var polls := LatePoll(cfg, start, gap);
      AnchoredCase(cfg, start, polls, gap, 0)
      && Elapsed(cfg, start, polls, 0) >= cfg.overallTimeout.value + gap
  {
    var polls := LatePoll(cfg, start, gap);
    assert polls[..0] == [];
    assert OrderlyTurn(start, polls, gap, 0);
    AnchoredElapsed(cfg, start, polls, gap, 0);
  }

  /** Some line of output resets the per-test clock. */
  ghost predicate Resettable(cfg: Config) {
    exists text: string :: Resets(cfg, text)
  }

  predicate Resets(cfg: Config, text: string) {
    cfg.resetWhen.Some? && cfg.resetWhen.value(cfg.demote(text))
  }

  /** The per-test clock runs from the spawn and fires no later than the absolute deadline, come what may. */
  ghost predicate PerTestNoLater(cfg: Config, start: nat)
    requires cfg.overallDeadlineAbs.Some?
  {
    var q := PerTestDeadline(cfg, start, []);
    q.Some? && (q.value <= start || (q.value <= cfg.overallDeadlineAbs.value && !Resettable(cfg)))
  }

  /**
   * Reports on an absolute deadline always reach the budget exactly when the anchor is an instant of the
   * clock, or the deadline can never be seen to pass, or the per-test clock always fires by then.
   */
  lemma AnchoredLowerBound(cfg: Config, start: nat, gap: nat)
    requires cfg.overallDeadlineAbs.Some? && cfg.overallTimeout.Some?
    ensures var d, t := cfg.overallDeadlineAbs.value, cfg.overallTimeout.value;
      NeverUnderReports(cfg, start, gap) <==> d >= t || (gap == 0 && d > start) || PerTestNoLater(cfg, start)
  {
    var d, t, q := cfg.overallDeadlineAbs.value, cfg.overallTimeout.value, PerTestDeadline(cfg, start, []);
    if d >= t || (gap == 0 && d > start) || PerTestNoLater(cfg, start) {
      forall polls: seq<Poll>, i: nat | AnchoredCase(cfg, start, polls, gap, i)
        ensures Elapsed(cfg, start, polls, i) >= t
      {
        AnchoredElapsed(cfg, start, polls, gap, i);
        if gap == 0 {
          ClockStandsStill(start, polls, i);
        }
        if PerTestNoLater(cfg, start) {
          PerTestAlwaysFires(cfg, start, polls, gap, i);
        }
      }
    } else if q.Some? && q.value <= d {
      var text: string :| Resets(cfg, text);
      EarlyAnchor(cfg, start, gap, Some(text));
    } else {
      EarlyAnchor(cfg, start, gap, None);
    }
  }

  /** No anchored case arises when the per-test clock, armed at the spawn, fires no later than the deadline. */
  lemma PerTestAlwaysFires(cfg: Config, start: nat, polls: seq<Poll>, gap: nat, i: nat)
    requires cfg.overallDeadlineAbs.Some? && PerTestNoLater(cfg, start)
    ensures !AnchoredCase(cfg, start, polls, gap, i)
  {
    if AnchoredCase(cfg, start, polls, gap, i) {
      assert polls[..0] == [];
      NowAfterStart(start, polls, gap, 0);
      assert i > 0 ==> !Ends(cfg, start, polls, 0);
      if !Resettable(cfg) {
        NeverRefreshed(cfg, start, polls[..i]);
      }
    }
  }

  lemma {:induction false} NeverRefreshed(cfg: Config, start: nat, polls: seq<Poll>)
    requires cfg.armWhen.None? && !Resettable(cfg)
    ensures LastRefresh(cfg, start, polls) == Some(start)
    decreases |polls|
  {
    if polls != [] {
      var p := polls[|polls| - 1];
      NeverRefreshed(cfg, start, polls[..|polls| - 1]);
      assert p.received.Line? ==> !Resets(cfg, p.received.text);
    }
  }

  lemma {:induction false} ClockStandsStill(start: nat, polls: seq<Poll>, i: nat)
    requires Clocked(start, polls, 0) && i < |polls|
    ensures polls[i].now == start
  {
    assert OrderlyTurn(start, polls, 0, i);
    if i > 0 {
      ClockStandsStill(start, polls, i - 1);
    }
  }

  /** Polls at every instant from `start` on, each yielding the line just before the next, or nothing. */
  function Ticking(start: nat, n: nat, text: Option<string>): seq<Poll> {
    seq(n, k requires 0 <= k < n =>
      Poll(false, start + k, if text.Some? then Line(text.value, start + k + 1) else Quiet, start + k))
  }

  lemma TickingPrefix(start: nat, n: nat, text: Option<string>, k: nat)
    requires k <= n
    ensures Ticking(start, n, text)[..k] == Ticking(start, k, text)
  {
  }

  /** When the per-test clock was last refreshed on such a trace. */
  lemma {:induction false} TickingRefresh(cfg: Config, start: nat, n: nat, text: Option<string>)
    requires text.Some? ==> cfg.armWhen.None? && Resets(cfg, text.value)
    ensures LastRefresh(cfg, start, Ticking(start, n, text)) ==
      if text.Some? then Some(start + n) else LastRefresh(cfg, start, [])
  {
    if n == 0 {
      assert Ticking(start, 0, text) == [];
    } else {
      var earlier, p := Ticking(start, n - 1, text), Ticking(start, n, text)[n - 1];
      TickingPrefix(start, n, text, n - 1);
      assert Ticking(start, n, text) == earlier + [p];
      TickingRefresh(cfg, start, n - 1, text);
      LastRefreshStep(cfg, start, earlier, p);
      ArmInstantStep(cfg, start, earlier, p);
      LastRefreshWhenArmed(cfg, start, earlier);
    }
  }

  /**
   * The anchor would lie before the clock's origin: a prompt kill is reported as younger than the budget.
   * A line that resets the per-test clock keeps it from firing first where it otherwise would.
   */
  lemma EarlyAnchor(cfg: Config, start: nat, gap: nat, text: Option<string>)
    requires cfg.overallDeadlineAbs.Some? && cfg.overallTimeout.Some?
    requires cfg.overallDeadlineAbs.value < cfg.overallTimeout.value
    requires gap > 0 || cfg.overallDeadlineAbs.value <= start
    requires var q := PerTestDeadline(cfg, start, []);
      if text.Some? then q.Some? && q.value > start && Resets(cfg, text.value)
      else q.None? || q.value > Max(start, cfg.overallDeadlineAbs.value)
    ensures var d := cfg.overallDeadlineAbs.value; var i := if d > start then d - start else 0;
      AnchoredCase(cfg, start, Ticking(start, i + 1, text), gap, i)
      && Elapsed(cfg, start, Ticking(start, i + 1, text), i) < cfg.overallTimeout.value
  {
    var d := cfg.overallDeadlineAbs.value;
    var i := if d > start then d - start else 0;
    var polls := Ticking(start, i + 1, text);
    forall k | 0 <= k <= i
      ensures OrderlyTurn(start, polls, gap, k) && !PerTestFires(cfg, start, polls, k)
    {
      TickingPrefix(start, i + 1, text, k);
      TickingRefresh(cfg, start, k, text);
    }
    assert AnchoredCase(cfg, start, polls, gap, i);
    AnchoredElapsed(cfg, start, polls, gap, i);
  }

  lemma {:induction false} NowAfterStart(start: nat, polls: seq<Poll>, gap: nat, i: nat)
    requires Clocked(start, polls, gap) && i < |polls|
    ensures start <= polls[i].now
  {
    assert OrderlyTurn(start, polls, gap, i);
    if i > 0 {
      NowAfterStart(start, polls, gap, i - 1);
    }
  }

  /** Both clocks fired: time since arming, which reaches every budget that ran from a line or the spawn. */
  lemma BothElapsed(cfg: Config, start: nat, polls: seq<Poll>, gap: nat, i: nat)
    requires Clocked(start, polls, gap) && i < |polls|
    requires OverallFires(cfg, start, polls, i) && PerTestFires(cfg, start, polls, i)
    ensures Elapsed(cfg, start, polls, i) >= cfg.perTestTimeout.value
    ensures cfg.overallDeadlineAbs.None? ==> Elapsed(cfg, start, polls, i) >= cfg.overallTimeout.value
  {
    StartingPoints(cfg, start, polls, gap, i);
    assert OrderlyTurn(start, polls, gap, i);
  }
}
