/** When a supervised run ends and how, told by instants and budgets alone. */
module WatchdogOutcomes {
  import opened Sequences
  import opened Watchdog
  import opened WatchdogTheorems

  // ----- the instants from which the budgets run -----

  /** The budgets were armed at `a`: at the spawn, or by the first line that arms. */
  ghost predicate ArmedAt(cfg: Config, start: nat, polls: seq<Poll>, a: nat) {
    if cfg.armWhen.None? then a == start
    else exists j: nat :: ArmsFirst(cfg, polls, j) && polls[j].received.at == a
  }

  predicate ArmsFirst(cfg: Config, polls: seq<Poll>, j: nat) {
    j < |polls| && SaysArm(cfg, polls[j]) && forall k :: 0 <= k < j ==> !SaysArm(cfg, polls[k])
  }

  /** The per-test budget last began to run at `r`: with the last line that armed or reset it, or the spawn. */
  ghost predicate RefreshedAt(cfg: Config, start: nat, polls: seq<Poll>, r: nat) {
    || (cfg.armWhen.None? && r == start && QuietFrom(cfg, polls, 0))
    || exists j: nat :: RefreshesLast(cfg, polls, j) && polls[j].received.at == r
  }

  predicate RefreshesLast(cfg: Config, polls: seq<Poll>, j: nat) {
    j < |polls| && RefreshesAt(cfg, polls, j) && QuietFrom(cfg, polls, j + 1)
  }

  lemma {:induction false} ArmInstantMeans(cfg: Config, start: nat, polls: seq<Poll>, a: nat)
    ensures ArmInstant(cfg, start, polls) == Some(a) <==> ArmedAt(cfg, start, polls, a)
  {
    if cfg.armWhen.Some? && polls != [] {
      if SaysArm(cfg, polls[0]) {
        assert ArmsFirst(cfg, polls, 0);
      } else {
        ArmInstantMeans(cfg, start, polls[1..], a);
        ArmsLater(cfg, polls, a);
      }
    }
  }

  lemma ArmsLater(cfg: Config, polls: seq<Poll>, a: nat)
    requires polls != [] && !SaysArm(cfg, polls[0])
    ensures (exists j: nat :: ArmsFirst(cfg, polls, j) && polls[j].received.at == a) <==>
      exists j: nat :: ArmsFirst(cfg, polls[1..], j) && polls[1..][j].received.at == a
  {
    if j: nat :| ArmsFirst(cfg, polls, j) && polls[j].received.at == a {
      assert polls[1..][j - 1] == polls[j];
      assert forall k :: 0 <= k < j - 1 ==> polls[1..][k] == polls[k + 1];
      assert ArmsFirst(cfg, polls[1..], j - 1);
    }
    if j: nat :| ArmsFirst(cfg, polls[1..], j) && polls[1..][j].received.at == a {
      assert polls[1..][j] == polls[j + 1];
      forall k | 0 <= k < j + 1
        ensures !SaysArm(cfg, polls[k])
      {
        assert k > 0 ==> polls[k] == polls[1..][k - 1];
      }
      assert ArmsFirst(cfg, polls, j + 1);
    }
  }

  /** Either nothing has refreshed the per-test budget, or something has done so last. */
  lemma {:induction false} QuietOrLast(cfg: Config, polls: seq<Poll>, from: nat) returns (j: nat)
    requires from <= |polls| && QuietFrom(cfg, polls, from)
    ensures QuietFrom(cfg, polls, 0) || RefreshesLast(cfg, polls, j)
    decreases from
  {
    j := 0;
    if from > 0 {
      if RefreshesAt(cfg, polls, from - 1) {
        j := from - 1;
      } else {
        j := QuietOrLast(cfg, polls, from - 1);
      }
    }
  }

  // ----- a budget is used up -----

  /** The per-test budget is used up at poll `i`. */
  ghost predicate PerTestUsedUp(cfg: Config, start: nat, polls: seq<Poll>, i: nat)
    requires i < |polls|
  {
    cfg.perTestTimeout.Some? &&
    exists r: nat ::
      && RefreshedAt(cfg, start, polls[..i], r)
      && r + cfg.perTestTimeout.value <= cfg.lastInstant && polls[i].now >= r + cfg.perTestTimeout.value
  }

  /** The overall budget, or the absolute deadline that replaces it, is used up at poll `i`. */
  ghost predicate OverallUsedUp(cfg: Config, start: nat, polls: seq<Poll>, i: nat)
    requires i < |polls|
  {
    if cfg.overallDeadlineAbs.Some? then polls[i].now >= cfg.overallDeadlineAbs.value
    else
      cfg.overallTimeout.Some? &&
      exists a: nat ::
        && ArmedAt(cfg, start, polls[..i], a)
        && a + cfg.overallTimeout.value <= cfg.lastInstant && polls[i].now >= a + cfg.overallTimeout.value
  }

  lemma PerTestFiresMeans(cfg: Config, start: nat, polls: seq<Poll>, i: nat)
    requires i < |polls|
    ensures PerTestFires(cfg, start, polls, i) <==> PerTestUsedUp(cfg, start, polls, i)
  {
    var before := polls[..i];
    if PerTestFires(cfg, start, polls, i) {
      var j := QuietOrLast(cfg, before, i);
      if QuietFrom(cfg, before, 0) {
        PerTestRunsFromSpawn(cfg, start, before);
        assert RefreshedAt(cfg, start, before, start);
      } else {
        PerTestRunsFromLastRefresh(cfg, start, before, j);
        assert RefreshedAt(cfg, start, before, before[j].received.at);
      }
    }
    if PerTestUsedUp(cfg, start, polls, i) {
      var r: nat :| RefreshedAt(cfg, start, before, r)
        && r + cfg.perTestTimeout.value <= cfg.lastInstant && polls[i].now >= r + cfg.perTestTimeout.value;
      RefreshedDeadline(cfg, start, before, r);
    }
  }

  lemma RefreshedDeadline(cfg: Config, start: nat, polls: seq<Poll>, r: nat)
    requires RefreshedAt(cfg, start, polls, r) && cfg.perTestTimeout.Some?
    requires r + cfg.perTestTimeout.value <= cfg.lastInstant
    ensures PerTestDeadline(cfg, start, polls) == Some(r + cfg.perTestTimeout.value)
  {
    if QuietFrom(cfg, polls, 0) {
      PerTestRunsFromSpawn(cfg, start, polls);
    } else {
      var j: nat :| RefreshesLast(cfg, polls, j) && polls[j].received.at == r;
      PerTestRunsFromLastRefresh(cfg, start, polls, j);
    }
  }

  lemma OverallFiresMeans(cfg: Config, start: nat, polls: seq<Poll>, i: nat)
    requires i < |polls|
    ensures OverallFires(cfg, start, polls, i) <==> OverallUsedUp(cfg, start, polls, i)
  {
    var arm := ArmInstant(cfg, start, polls[..i]);
    if arm.Some? {
      ArmInstantMeans(cfg, start, polls[..i], arm.value);
    }
    if cfg.overallDeadlineAbs.None? && OverallUsedUp(cfg, start, polls, i) {
      var a: nat :| ArmedAt(cfg, start, polls[..i], a)
        && a + cfg.overallTimeout.value <= cfg.lastInstant && polls[i].now >= a + cfg.overallTimeout.value;
      ArmInstantMeans(cfg, start, polls[..i], a);
    }
  }

  // ----- how a run ends -----

  ghost predicate UsedUp(cfg: Config, start: nat, polls: seq<Poll>, i: nat)
    requires i < |polls|
  {
    PerTestUsedUp(cfg, start, polls, i) || OverallUsedUp(cfg, start, polls, i)
  }

  predicate OutputEnds(p: Poll) {
    p.received == EndOfOutput || p.received == Disconnected
  }

  /** No poll before `i` is cancelled, finds a budget used up or meets the end of the output. */
  ghost predicate Reaches(cfg: Config, start: nat, polls: seq<Poll>, i: nat)
    requires i <= |polls|
  {
    forall j :: 0 <= j < i ==> !polls[j].cancelled && !UsedUp(cfg, start, polls, j) && !OutputEnds(polls[j])
  }

  lemma EndsMeans(cfg: Config, start: nat, polls: seq<Poll>, i: nat)
    requires i < |polls|
    ensures Fires(cfg, start, polls, i) <==> !polls[i].cancelled && UsedUp(cfg, start, polls, i)
    ensures Ends(cfg, start, polls, i) <==>
      polls[i].cancelled || UsedUp(cfg, start, polls, i) || OutputEnds(polls[i])
  {
    PerTestFiresMeans(cfg, start, polls, i);
    OverallFiresMeans(cfg, start, polls, i);
  }

  lemma ReachesMeans(cfg: Config, start: nat, polls: seq<Poll>, i: nat)
    requires i <= |polls|
    ensures Reaches(cfg, start, polls, i) <==> i <= Stop(cfg, start, polls)
  {
    var s := Stop(cfg, start, polls);
    if s < i {
      EndsMeans(cfg, start, polls, s);
    }
    forall j | 0 <= j < i
      ensures Ends(cfg, start, polls, j) <==>
        polls[j].cancelled || UsedUp(cfg, start, polls, j) || OutputEnds(polls[j])
    {
      EndsMeans(cfg, start, polls, j);
    }
  }

  /**
   * The run ends with the first poll at which the call is cancelled, a budget is used up or the output ends:
   * cancelled if it is, else timed out if a budget is used up, else by itself; without such a poll it is
   * still running.
   */
  lemma VerdictMeans(cfg: Config, start: nat, polls: seq<Poll>, i: nat)
    requires i < |polls| && Reaches(cfg, start, polls, i)
    ensures polls[i].cancelled ==> Verdict(cfg, start, polls) == Cancelled
    ensures !polls[i].cancelled && UsedUp(cfg, start, polls, i) ==> Verdict(cfg, start, polls).TimedOut?
    ensures !polls[i].cancelled && !UsedUp(cfg, start, polls, i) && OutputEnds(polls[i]) ==>
      Verdict(cfg, start, polls) == Exited
  {
    ReachesMeans(cfg, start, polls, i);
    EndsMeans(cfg, start, polls, i);
    assert Ends(cfg, start, polls, i) ==> Stop(cfg, start, polls) == i;
  }

  /** The run times out iff a poll that is not cancelled finds a budget used up and no earlier poll ended it. */
  lemma TimesOutIff(cfg: Config, start: nat, polls: seq<Poll>)
    ensures Verdict(cfg, start, polls).TimedOut? <==> exists i: nat :: UsesUpFirst(cfg, start, polls, i)
  {
    var s := Stop(cfg, start, polls);
    ReachesMeans(cfg, start, polls, s);
    if Verdict(cfg, start, polls).TimedOut? {
      EndsMeans(cfg, start, polls, s);
      assert UsesUpFirst(cfg, start, polls, s);
    }
    if i: nat :| UsesUpFirst(cfg, start, polls, i) {
      VerdictMeans(cfg, start, polls, i);
    }
  }

  ghost predicate UsesUpFirst(cfg: Config, start: nat, polls: seq<Poll>, i: nat) {
    i < |polls| && Reaches(cfg, start, polls, i) && !polls[i].cancelled && UsedUp(cfg, start, polls, i)
  }

  lemma StillRunning(cfg: Config, start: nat, polls: seq<Poll>)
    ensures Verdict(cfg, start, polls) == Running <==> Reaches(cfg, start, polls, |polls|)
  {
    ReachesMeans(cfg, start, polls, |polls|);
  }

  /** A test that has run for its whole budget since the last line that armed or reset it is timed out. */
  lemma PerTestEndsRun(cfg: Config, start: nat, polls: seq<Poll>, i: nat, r: nat, t: nat)
    requires i < |polls| && Reaches(cfg, start, polls, i) && !polls[i].cancelled
    requires RefreshedAt(cfg, start, polls[..i], r) && cfg.perTestTimeout == Some(t) && r + t <= cfg.lastInstant
    ensures polls[i].now >= r + t ==> Verdict(cfg, start, polls).TimedOut?
    ensures polls[i].now < r + t ==> !PerTestUsedUp(cfg, start, polls, i)
  {
    VerdictMeans(cfg, start, polls, i);
    PerTestFiresMeans(cfg, start, polls, i);
    RefreshedDeadline(cfg, start, polls[..i], r);
  }

  /** So is an execution that has taken the whole overall budget since it was armed. */
  lemma OverallEndsRun(cfg: Config, start: nat, polls: seq<Poll>, i: nat, a: nat, t: nat)
    requires i < |polls| && Reaches(cfg, start, polls, i) && !polls[i].cancelled
    requires cfg.overallDeadlineAbs.None?
    requires ArmedAt(cfg, start, polls[..i], a) && cfg.overallTimeout == Some(t) && a + t <= cfg.lastInstant
    ensures polls[i].now >= a + t ==> Verdict(cfg, start, polls).TimedOut?
    ensures polls[i].now < a + t ==> !OverallUsedUp(cfg, start, polls, i)
  {
    VerdictMeans(cfg, start, polls, i);
    OverallFiresMeans(cfg, start, polls, i);
    ArmInstantMeans(cfg, start, polls[..i], a);
  }

  /** The time from one instant to another, none if the clock went back. */
  function Span(from: nat, to: nat): int {
    Max(to - from, 0)
  }

  /**
   * The elapsed time a timeout reports: since the last refresh, if only the per-test budget is used up; since
   * the shared anchor, if only an absolute deadline has passed and a budget goes with it; else since arming.
   */
  lemma ElapsedMeans(cfg: Config, start: nat, polls: seq<Poll>, i: nat, r: nat, a: nat)
    requires i < |polls| && Reaches(cfg, start, polls, i) && !polls[i].cancelled && UsedUp(cfg, start, polls, i)
    requires RefreshedAt(cfg, start, polls[..i], r) || !PerTestUsedUp(cfg, start, polls, i)
    requires ArmedAt(cfg, start, polls[..i], a) || (a == start && forall x :: !ArmedAt(cfg, start, polls[..i], x))
    ensures var perTest, overall := PerTestUsedUp(cfg, start, polls, i), OverallUsedUp(cfg, start, polls, i);
      var p := polls[i];
      var anchored := cfg.overallDeadlineAbs.Some? && cfg.overallTimeout.Some?;
      var anchor := cfg.overallDeadlineAbs.GetOr(0) - cfg.overallTimeout.GetOr(0);
      Verdict(cfg, start, polls) == TimedOut(
        if perTest && !overall then Span(r, p.now)
        else if overall && !perTest && anchored then Span(if anchor >= 0 then anchor else start, p.now)
        else Span(a, p.later))
  {
    ReachesMeans(cfg, start, polls, i);
    EndsMeans(cfg, start, polls, i);
    PerTestFiresMeans(cfg, start, polls, i);
    OverallFiresMeans(cfg, start, polls, i);
    ArmInstantMeans(cfg, start, polls[..i], a);
    var arm := ArmInstant(cfg, start, polls[..i]);
    if arm.Some? {
      ArmInstantMeans(cfg, start, polls[..i], arm.value);
    }
    if PerTestUsedUp(cfg, start, polls, i) {
      RefreshedIsLast(cfg, start, polls[..i], r);
    }
  }

  lemma RefreshedIsLast(cfg: Config, start: nat, polls: seq<Poll>, r: nat)
    requires RefreshedAt(cfg, start, polls, r)
    ensures LastRefresh(cfg, start, polls) == Some(r)
  {
    var c := cfg.(perTestTimeout := Some(0), lastInstant := Max(r, start));
    SameRefresh(cfg, c, start, polls);
    if QuietFrom(cfg, polls, 0) {
      assert QuietFrom(c, polls, 0);
      PerTestRunsFromSpawn(c, start, polls);
    } else {
      var j: nat :| RefreshesLast(cfg, polls, j) && polls[j].received.at == r;
      assert RefreshesAt(c, polls, j) && QuietFrom(c, polls, j + 1);
      PerTestRunsFromLastRefresh(c, start, polls, j);
    }
  }

  /** The budgets have no say in when the per-test clock is refreshed. */
  lemma {:induction false} SameRefresh(cfg: Config, c: Config, start: nat, polls: seq<Poll>)
    requires c.armWhen == cfg.armWhen && c.resetWhen == cfg.resetWhen && c.demote == cfg.demote
    ensures LastRefresh(c, start, polls) == LastRefresh(cfg, start, polls)
    ensures forall k :: 0 <= k < |polls| ==> (RefreshesAt(c, polls, k) <==> RefreshesAt(cfg, polls, k))
    decreases |polls|
  {
    if polls != [] {
      var n := |polls| - 1;
      SameRefresh(cfg, c, start, polls[..n]);
      SameArm(cfg, c, start, polls);
      SameArm(cfg, c, start, polls[..n]);
    }
    forall k | 0 <= k < |polls|
      ensures RefreshesAt(c, polls, k) <==> RefreshesAt(cfg, polls, k)
    {
      assert forall j :: 0 <= j < k ==> (SaysArm(c, polls[j]) <==> SaysArm(cfg, polls[j]));
      assert ArmedBy(c, polls, k) <==> ArmedBy(cfg, polls, k);
    }
  }

  lemma {:induction false} SameArm(cfg: Config, c: Config, start: nat, polls: seq<Poll>)
    requires c.armWhen == cfg.armWhen && c.demote == cfg.demote
    ensures ArmInstant(c, start, polls) == ArmInstant(cfg, start, polls)
  {
    if polls != [] {
      SameArm(cfg, c, start, polls[1..]);
    }
  }

  // ----- the output handed on -----

  function LineCount(polls: seq<Poll>): nat {
    if polls == [] then 0 else (if polls[0].received.Line? then 1 else 0) + LineCount(polls[1..])
  }

  /** The callback gets the rewritten text of every line, in order. */
  lemma {:induction false} DeliveredMeans(cfg: Config, polls: seq<Poll>)
    ensures |Delivered(cfg, polls)| == LineCount(polls)
    ensures forall i :: 0 <= i < |polls| && polls[i].received.Line? ==>
      LineCount(polls[..i]) < LineCount(polls)
      && Delivered(cfg, polls)[LineCount(polls[..i])] == cfg.demote(polls[i].received.text)
    decreases |polls|
  {
    if polls != [] {
      var n := |polls| - 1;
      var earlier := polls[..n];
      assert polls == earlier + [polls[n]];
      DeliveredMeans(cfg, earlier);
      LineCountPush(earlier, polls[n]);
      forall i | 0 <= i < |polls| && polls[i].received.Line?
        ensures LineCount(polls[..i]) < LineCount(polls)
          && Delivered(cfg, polls)[LineCount(polls[..i])] == cfg.demote(polls[i].received.text)
      {
        if i < n {
          assert earlier[..i] == polls[..i] && earlier[i] == polls[i];
        }
      }
    }
  }

  lemma {:induction false} LineCountPush(polls: seq<Poll>, p: Poll)
    ensures LineCount(polls + [p]) == LineCount(polls) + if p.received.Line? then 1 else 0
  {
    if polls == [] {
      assert polls + [p] == [p] && [p][1..] == [];
    } else {
      assert (polls + [p])[1..] == polls[1..] + [p];
      LineCountPush(polls[1..], p);
    }
  }

  /** The lines of a text, each ended by a newline. */
  function SplitLines(text: string, cur: string): seq<string> {
    if text == "" then []
    else if text[0] == '\n' then [cur] + SplitLines(text[1..], "")
    else SplitLines(text[1..], cur + [text[0]])
  }

  lemma {:induction false} SplitLine(line: string, rest: string, cur: string)
    requires '\n' !in line
    ensures SplitLines(line + "\n" + rest, cur) == [cur + line] + SplitLines(rest, "")
  {
    if line == "" {
      assert line + "\n" + rest == "\n" + rest && cur + line == cur;
      assert ("\n" + rest)[1..] == rest;
    } else {
      assert (line + "\n" + rest)[1..] == line[1..] + "\n" + rest;
      SplitLine(line[1..], rest, cur + [line[0]]);
      assert cur + [line[0]] + line[1..] == cur + line;
    }
  }

  lemma {:induction false} JoinedThen(lines: seq<string>, rest: string)
    requires forall l :: l in lines ==> '\n' !in l
    ensures SplitLines(Joined(lines) + rest, "") == lines + SplitLines(rest, "")
    decreases |lines|
  {
    if lines == [] {
      assert Joined(lines) + rest == rest;
    } else {
      var n := |lines| - 1;
      assert lines[n] in lines;
      assert Joined(lines) + rest == Joined(lines[..n]) + (lines[n] + "\n" + rest);
      JoinedThen(lines[..n], lines[n] + "\n" + rest);
      SplitLine(lines[n], rest, "");
      assert "" + lines[n] == lines[n];
    }
  }

  /** The buffer holds the delivered lines and nothing else: split at its newlines it gives them back. */
  lemma BufferMeans(lines: seq<string>)
    requires forall l :: l in lines ==> '\n' !in l
    ensures SplitLines(Joined(lines), "") == lines
  {
    JoinedThen(lines, "");
    assert Joined(lines) + "" == Joined(lines) && lines + [] == lines;
  }
}
