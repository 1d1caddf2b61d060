/**
 * The supervising poll loop and its two clocks (invoke.rs, `run_cargo_streaming_once`).
 *
 * Instants are natural numbers. A poll is one turn of the loop as the environment presents it: whether
 * the call is cancelled, the instant read, what the line channel yields within the tick, and the
 * instant a later `elapsed()` would read.
 */
module Watchdog {
  import opened Sequences

  datatype Config = Config(
    overallTimeout: Option<nat>,
    overallDeadlineAbs: Option<nat>,
    perTestTimeout: Option<nat>,
    armWhen: Option<string -> bool>,
    resetWhen: Option<string -> bool>,
    demote: string -> string,
    lastInstant: nat)

  datatype Received = Line(text: string, at: nat) | EndOfOutput | Quiet | Disconnected

  datatype Poll = Poll(cancelled: bool, now: nat, received: Received, later: nat)

  datatype Outcome = Running | Exited | Cancelled | TimedOut(elapsed: nat)

  /** `Instant::checked_add`: no deadline when the sum is not representable. */
  function CheckedAdd(cfg: Config, t: nat, d: nat): Option<nat> {
    if t + d <= cfg.lastInstant then Some(t + d) else None
  }

  /** `Instant::checked_sub`. */
  function CheckedSub(t: nat, d: nat): Option<nat> {
    if t >= d then Some(t - d) else None
  }

  function Deadline(cfg: Config, from: Option<nat>, budget: Option<nat>): Option<nat> {
    if from.Some? && budget.Some? then CheckedAdd(cfg, from.value, budget.value) else None
  }

  function Since(now: nat, then_: nat): nat {
    if now >= then_ then now - then_ else 0
  }

  predicate ArmLine(cfg: Config, p: Poll) {
    cfg.armWhen.Some? && p.received.Line? && cfg.armWhen.value(cfg.demote(p.received.text))
  }

  predicate ResetLine(cfg: Config, p: Poll) {
    cfg.resetWhen.Some? && p.received.Line? && cfg.resetWhen.value(cfg.demote(p.received.text))
  }

  /** When the clocks were armed: at spawn, or by the first line that satisfies the predicate. */
  function ArmInstant(cfg: Config, start: nat, polls: seq<Poll>): Option<nat> {
    if cfg.armWhen.None? then Some(start)
    else if polls == [] then None
    else if ArmLine(cfg, polls[0]) then Some(polls[0].received.at)
    else ArmInstant(cfg, start, polls[1..])
  }

  /** When the per-test clock was last armed or reset. */
  function LastRefresh(cfg: Config, start: nat, polls: seq<Poll>): Option<nat>
    decreases |polls|
  {
    if polls == [] then ArmInstant(cfg, start, [])
    else
      var earlier, p := polls[..|polls| - 1], polls[|polls| - 1];
      if ArmInstant(cfg, start, earlier).None? then ArmInstant(cfg, start, polls)
      else if ResetLine(cfg, p) then Some(p.received.at)
      else LastRefresh(cfg, start, earlier)
  }

  function OverallDeadline(cfg: Config, start: nat, polls: seq<Poll>): Option<nat> {
    if cfg.overallDeadlineAbs.Some? then cfg.overallDeadlineAbs
    else Deadline(cfg, ArmInstant(cfg, start, polls), cfg.overallTimeout)
  }

  function PerTestDeadline(cfg: Config, start: nat, polls: seq<Poll>): Option<nat> {
    Deadline(cfg, LastRefresh(cfg, start, polls), cfg.perTestTimeout)
  }

  predicate Passed(deadline: Option<nat>, now: nat) {
    deadline.Some? && now >= deadline.value
  }

  predicate OverallFires(cfg: Config, start: nat, polls: seq<Poll>, i: nat)
    requires i < |polls|
  {
    Passed(OverallDeadline(cfg, start, polls[..i]), polls[i].now)
  }

  predicate PerTestFires(cfg: Config, start: nat, polls: seq<Poll>, i: nat)
    requires i < |polls|
  {
    Passed(PerTestDeadline(cfg, start, polls[..i]), polls[i].now)
  }

  /** Poll `i` is not pre-empted by a cancel and finds an active deadline passed. */
  predicate Fires(cfg: Config, start: nat, polls: seq<Poll>, i: nat)
    requires i < |polls|
  {
    !polls[i].cancelled && (OverallFires(cfg, start, polls, i) || PerTestFires(cfg, start, polls, i))
  }

  predicate Ends(cfg: Config, start: nat, polls: seq<Poll>, i: nat)
    requires i < |polls|
  {
    || polls[i].cancelled
    || Fires(cfg, start, polls, i)
    || polls[i].received.EndOfOutput?
    || polls[i].received.Disconnected?
  }

  /** The elapsed time a timeout at poll `i` reports, by the clock that fired. */
  function Elapsed(cfg: Config, start: nat, polls: seq<Poll>, i: nat): nat
    requires i < |polls|
  {
    var p := polls[i];
    var overall, perTest := OverallFires(cfg, start, polls, i), PerTestFires(cfg, start, polls, i);
    if perTest && !overall then Since(p.now, LastRefresh(cfg, start, polls[..i]).value)
    else if overall && !perTest && cfg.overallDeadlineAbs.Some? && cfg.overallTimeout.Some? then
      var d, t := cfg.overallDeadlineAbs.value, cfg.overallTimeout.value;
      Since(p.now, CheckedSub(d, t).GetOr(start))
    else Since(p.later, Armed(cfg, start, polls[..i]))
  }

  /** Where execution started: the arming line, or the spawn. */
  function Armed(cfg: Config, start: nat, polls: seq<Poll>): nat {
    ArmInstant(cfg, start, polls).GetOr(start)
  }

  /** The first poll that ends the loop, or the length of the trace while it still runs. */
  function Stop(cfg: Config, start: nat, polls: seq<Poll>): (i: nat)
    ensures i <= |polls|
    ensures forall j :: 0 <= j < i ==> !Ends(cfg, start, polls, j)
    ensures i < |polls| ==> Ends(cfg, start, polls, i)
  {
    StopFrom(cfg, start, polls, 0)
  }

  function StopFrom(cfg: Config, start: nat, polls: seq<Poll>, from: nat): (i: nat)
    requires from <= |polls|
    ensures from <= i <= |polls|
    ensures forall j :: from <= j < i ==> !Ends(cfg, start, polls, j)
    ensures i < |polls| ==> Ends(cfg, start, polls, i)
    decreases |polls| - from
  {
    if from == |polls| || Ends(cfg, start, polls, from) then from else StopFrom(cfg, start, polls, from + 1)
  }

  function Verdict(cfg: Config, start: nat, polls: seq<Poll>): Outcome {
    var i := Stop(cfg, start, polls);
    if i == |polls| then Running
    else if polls[i].cancelled then Cancelled
    else if Fires(cfg, start, polls, i) then TimedOut(Elapsed(cfg, start, polls, i))
    else Exited
  }

  /** The lines handed to the callback. */
  function Delivered(cfg: Config, polls: seq<Poll>): seq<string> {
    if polls == [] then []
    else
      var r := polls[|polls| - 1].received;
      Delivered(cfg, polls[..|polls| - 1]) + if r.Line? then [cfg.demote(r.text)] else []
  }

  function Joined(lines: seq<string>): string {
    if lines == [] then "" else Joined(lines[..|lines| - 1]) + lines[|lines| - 1] + "\n"
  }

  lemma {:induction false} ArmInstantStep(cfg: Config, start: nat, polls: seq<Poll>, p: Poll)
    ensures ArmInstant(cfg, start, polls + [p]) ==
      if ArmInstant(cfg, start, polls).Some? then ArmInstant(cfg, start, polls)
      else if ArmLine(cfg, p) then Some(p.received.at) else None
  {
    if polls == [] {
      assert polls + [p] == [p];
    } else {
      assert (polls + [p])[0] == polls[0] && (polls + [p])[1..] == polls[1..] + [p];
      ArmInstantStep(cfg, start, polls[1..], p);
    }
  }

  lemma LastRefreshStep(cfg: Config, start: nat, polls: seq<Poll>, p: Poll)
    ensures LastRefresh(cfg, start, polls + [p]) ==
      if ArmInstant(cfg, start, polls).None? then ArmInstant(cfg, start, polls + [p])
      else if ResetLine(cfg, p) then Some(p.received.at) else LastRefresh(cfg, start, polls)
  {
    assert (polls + [p])[..|polls|] == polls;
  }

  lemma {:induction false} LastRefreshWhenArmed(cfg: Config, start: nat, polls: seq<Poll>)
    ensures LastRefresh(cfg, start, polls).Some? <==> ArmInstant(cfg, start, polls).Some?
    decreases |polls|
  {
    if polls != [] {
      var earlier, p := polls[..|polls| - 1], polls[|polls| - 1];
      assert polls == earlier + [p];
      ArmInstantStep(cfg, start, earlier, p);
      LastRefreshWhenArmed(cfg, start, earlier);
    }
  }

  lemma DeliveredStep(cfg: Config, polls: seq<Poll>, p: Poll)
    ensures Delivered(cfg, polls + [p]) ==
      Delivered(cfg, polls) + if p.received.Line? then [cfg.demote(p.received.text)] else []
  {
    assert (polls + [p])[..|polls|] == polls;
  }

  lemma JoinedStep(lines: seq<string>, l: string)
    ensures Joined(lines + [l]) == Joined(lines) + l + "\n"
  {
    assert (lines + [l])[..|lines|] == lines;
  }

  /** The loop's local variables agree with the trace so far. */
  ghost predicate Tracks(
      cfg: Config, start: nat, polls: seq<Poll>,
      armed: bool, armedAt: Option<nat>, overallDeadline: Option<nat>, perTestDeadline: Option<nat>) {
    && (armed <==> ArmInstant(cfg, start, polls).Some?)
    && armedAt.GetOr(start) == Armed(cfg, start, polls)
    && overallDeadline == OverallDeadline(cfg, start, polls)
    && perTestDeadline == PerTestDeadline(cfg, start, polls)
  }

  /** The deadline check of one turn: the elapsed time to report when a clock fired. */
  method CheckClocks(
      cfg: Config, start: nat, polls: seq<Poll>, i: nat,
      armed: bool, armedAt: Option<nat>, overallDeadline: Option<nat>, perTestDeadline: Option<nat>)
    returns (fired: Option<nat>)
    requires i < |polls| && !polls[i].cancelled
    requires Tracks(cfg, start, polls[..i], armed, armedAt, overallDeadline, perTestDeadline)
    ensures fired == if Fires(cfg, start, polls, i) then Some(Elapsed(cfg, start, polls, i)) else None
  {
    var now := polls[i].now;
    var overallFired := overallDeadline.Some? && now >= overallDeadline.value;
    var perTestFired := perTestDeadline.Some? && now >= perTestDeadline.value;
    if !overallFired && !perTestFired {
      return None;
    }
    var elapsed: nat;
    if perTestFired && !overallFired && cfg.perTestTimeout.Some? {
      var d, t := perTestDeadline.value, cfg.perTestTimeout.value;
      elapsed := Since(now, CheckedSub(d, t).GetOr(start));
    } else if overallFired && !perTestFired && cfg.overallDeadlineAbs.Some? && cfg.overallTimeout.Some? {
      var d, t := cfg.overallDeadlineAbs.value, cfg.overallTimeout.value;
      elapsed := Since(now, CheckedSub(d, t).GetOr(start));
    } else {
      elapsed := Since(polls[i].later, armedAt.GetOr(start));
    }
    fired := Some(elapsed);
  }

  /** Arming and resetting on one received line. */
  method OnLine(
      cfg: Config, start: nat, ghost before: seq<Poll>, p: Poll,
      armed: bool, armedAt: Option<nat>, overallDeadline: Option<nat>, perTestDeadline: Option<nat>)
    returns (armed': bool, armedAt': Option<nat>, overallDeadline': Option<nat>, perTestDeadline': Option<nat>)
    requires p.received.Line?
    requires Tracks(cfg, start, before, armed, armedAt, overallDeadline, perTestDeadline)
    ensures Tracks(cfg, start, before + [p], armed', armedAt', overallDeadline', perTestDeadline')
  {
    var line, at := cfg.demote(p.received.text), p.received.at;
    armed', armedAt', overallDeadline', perTestDeadline' := armed, armedAt, overallDeadline, perTestDeadline;
    ArmInstantStep(cfg, start, before, p);
    LastRefreshStep(cfg, start, before, p);
    var justArmed := false;
    if !armed && cfg.armWhen.Some? && cfg.armWhen.value(line) {
      armedAt' := Some(at);
      armed' := true;
      if cfg.overallDeadlineAbs.None? {
        overallDeadline' := if cfg.overallTimeout.Some? then CheckedAdd(cfg, at, cfg.overallTimeout.value) else None;
      }
      perTestDeadline' := if cfg.perTestTimeout.Some? then CheckedAdd(cfg, at, cfg.perTestTimeout.value) else None;
      justArmed := true;
    }
    if armed' && !justArmed && cfg.perTestTimeout.Some? && cfg.resetWhen.Some? && cfg.resetWhen.value(line) {
      perTestDeadline' := CheckedAdd(cfg, at, cfg.perTestTimeout.value);
    }
    LastRefreshWhenArmed(cfg, start, before);
  }

  lemma QuietTurn(cfg: Config, start: nat, before: seq<Poll>, p: Poll)
    requires !p.received.Line?
    ensures ArmInstant(cfg, start, before + [p]) == ArmInstant(cfg, start, before)
    ensures LastRefresh(cfg, start, before + [p]) == LastRefresh(cfg, start, before)
  {
    ArmInstantStep(cfg, start, before, p);
    LastRefreshStep(cfg, start, before, p);
    LastRefreshWhenArmed(cfg, start, before);
  }

  /** The loop of `run_cargo_streaming_once`, over the polls its environment presents. */
  method Supervise(cfg: Config, start: nat, polls: seq<Poll>)
    returns (outcome: Outcome, delivered: seq<string>, stdoutBuf: string, taken: nat)
    ensures taken == Stop(cfg, start, polls)
    ensures outcome == Verdict(cfg, start, polls)
    ensures delivered == Delivered(cfg, polls[..taken])
    ensures stdoutBuf == Joined(delivered)
  {
    var armed := cfg.armWhen.None?;
    var overallDeadline :=
      if cfg.overallDeadlineAbs.Some? then cfg.overallDeadlineAbs
      else if armed && cfg.overallTimeout.Some? then CheckedAdd(cfg, start, cfg.overallTimeout.value)
      else None;
    var perTestDeadline :=
      if armed && cfg.perTestTimeout.Some? then CheckedAdd(cfg, start, cfg.perTestTimeout.value) else None;
    var armedAt: Option<nat> := None;
    delivered, stdoutBuf, taken := [], "", 0;
    while taken < |polls|
      invariant taken <= |polls|
      invariant StopFrom(cfg, start, polls, taken) == Stop(cfg, start, polls)
      invariant Tracks(cfg, start, polls[..taken], armed, armedAt, overallDeadline, perTestDeadline)
      invariant delivered == Delivered(cfg, polls[..taken]) && stdoutBuf == Joined(delivered)
    {
      var p := polls[taken];
      if p.cancelled {
        return Cancelled, delivered, stdoutBuf, taken;
      }
      var fired := CheckClocks(cfg, start, polls, taken, armed, armedAt, overallDeadline, perTestDeadline);
      if fired.Some? {
        return TimedOut(fired.value), delivered, stdoutBuf, taken;
      }
      ghost var before := polls[..taken];
      assert polls[..taken + 1] == before + [p];
      DeliveredStep(cfg, before, p);
      if p.received.EndOfOutput? || p.received.Disconnected? {
        return Exited, delivered, stdoutBuf, taken;
      }
      if p.received.Line? {
        armed, armedAt, overallDeadline, perTestDeadline :=
          OnLine(cfg, start, before, p, armed, armedAt, overallDeadline, perTestDeadline);
        var line := cfg.demote(p.received.text);
        JoinedStep(delivered, line);
        delivered, stdoutBuf := delivered + [line], stdoutBuf + line + "\n";
      } else {
        QuietTurn(cfg, start, before, p);
      }
      taken := taken + 1;
    }
    outcome := Running;
  }
}
