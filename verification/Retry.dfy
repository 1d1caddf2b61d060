/**
 * Retrying on transient busy errors (invoke.rs, `run_cargo_streaming_with_timeout`). Durations and
 * instants are nanoseconds.
 */
module Retry {
  import opened Sequences

  const MILLISECOND := 1_000_000
  const STEP := 50 * MILLISECOND

  const IDEMPOTENT_SUBCOMMANDS := [
    "check", "build", "test", "bench", "clippy", "fmt", "doc", "tree", "clean", "metadata"]

  datatype Output = Output(stdout: string, stderr: string, exitCode: int)

  datatype Error = Cancelled | TimedOut(elapsed: nat) | Other

  datatype Config = Config(
    retryEnabled: bool, retryMaxAttempts: nat, retryDelayMs: nat,
    timeout: Option<nat>, arming: bool, lastInstant: nat)

  /**
   * The world outside: what the `n`-th attempt yields and how long it takes with its budget, what is
   * known of the holders of busy files, whether the call is cancelled at an instant, how much time
   * passes before each clock read, and how outputs are judged and reported.
   */
  datatype World = World(
    reply: nat -> Result<Output, Error>,
    takes: (nat, Option<nat>) -> nat,
    holders: nat -> string,
    cancelled: nat -> bool,
    passes: nat -> nat,
    isBusyError: string -> bool,
    giveUp: (nat, int) -> string)

  datatype Event = Spawn(at: nat, budget: Option<nat>) | Sleep(at: nat, duration: nat)

  datatype Clock = Clock(now: nat, readings: nat)

  function Read(w: World, c: Clock): Clock {
    Clock(c.now + w.passes(c.readings), c.readings + 1)
  }

  predicate IsRetrySafe(args: seq<string>) {
    var sub := if args != [] && args[0] != "" && args[0][0] == '+' then args[1..] else args;
    sub != [] && sub[0] in IDEMPOTENT_SUBCOMMANDS
  }

  function MaxAttempts(cfg: Config, args: seq<string>): nat {
    if cfg.retryEnabled && IsRetrySafe(args) then Max(cfg.retryMaxAttempts, 1) else 1
  }

  function Delay(cfg: Config): nat {
    cfg.retryDelayMs * MILLISECOND
  }

  predicate Busy(w: World, out: Output) {
    out.exitCode != 0 && (w.isBusyError(out.stderr) || w.isBusyError(out.stdout))
  }

  /** The single deadline that attempts and backoff share, unless the budget is armed by the output. */
  function OverallDeadline(cfg: Config, start: nat): Option<nat> {
    if !cfg.arming && cfg.timeout.Some? && start + cfg.timeout.value <= cfg.lastInstant
    then Some(start + cfg.timeout.value) else None
  }

  function Remaining(deadline: Option<nat>, now: nat): Option<nat> {
    if deadline.None? then None else Some(if deadline.value >= now then deadline.value - now else 0)
  }

  // ----- what a log of effects has to satisfy -----

  function Spawns(log: seq<Event>): nat {
    if log == [] then 0 else Spawns(log[..|log| - 1]) + if log[|log| - 1].Spawn? then 1 else 0
  }

  /** Time slept since the last spawn. */
  function Slept(log: seq<Event>): nat {
    if log == [] || log[|log| - 1].Spawn? then 0 else Slept(log[..|log| - 1]) + log[|log| - 1].duration
  }

  /** Time that the attempts and the sleeps took. */
  function Worked(w: World, log: seq<Event>): nat {
    if log == [] then 0
    else
      var e := log[|log| - 1];
      Worked(w, log[..|log| - 1]) + if e.Spawn? then w.takes(Spawns(log), e.budget) else e.duration
  }

  /** Time that passed before the first `n` clock reads. */
  function Idled(w: World, n: nat): nat {
    if n == 0 then 0 else Idled(w, n - 1) + w.passes(n - 1)
  }

  /** Clock reads before the attempts, unless the budget is armed by the output, and before the sleeps. */
  function Reads(cfg: Config, log: seq<Event>): nat {
    if log == [] then 0
    else
      Reads(cfg, log[..|log| - 1]) + if log[|log| - 1].Sleep? then 2 else if cfg.arming then 0 else 1
  }

  /** The log and the clock reads account for all the time since the start. */
  predicate Accounted(w: World, start: nat, clock: Clock, log: seq<Event>) {
    clock.now == start + Worked(w, log) + Idled(w, clock.readings)
  }

  lemma Append(cfg: Config, w: World, log: seq<Event>, e: Event)
    ensures Spawns(log + [e]) == Spawns(log) + if e.Spawn? then 1 else 0
    ensures Slept(log + [e]) == if e.Spawn? then 0 else Slept(log) + e.duration
    ensures Worked(w, log + [e]) ==
      Worked(w, log) + if e.Spawn? then w.takes(Spawns(log) + 1, e.budget) else e.duration
    ensures Reads(cfg, log + [e]) == Reads(cfg, log) + if e.Sleep? then 2 else if cfg.arming then 0 else 1
  {
    assert (log + [e])[..|log|] == log;
  }

  /** Attempts and sleeps end by the deadline, but for a sleep of one millisecond once it has passed. */
  predicate InBudget(cfg: Config, start: nat, e: Event) {
    var deadline := OverallDeadline(cfg, start);
    match e
    case Spawn(at, budget) =>
      if cfg.arming then budget == cfg.timeout && budget != Some(0)
      else if deadline.Some? then at < deadline.value && budget == Some(deadline.value - at)
      else budget == None
    case Sleep(at, duration) =>
      && 0 < duration <= STEP
      && (deadline.Some? ==> at + duration <= deadline.value || (at >= deadline.value && duration == MILLISECOND))
  }

  predicate AllInBudget(cfg: Config, start: nat, log: seq<Event>) {
    forall e :: e in log ==> InBudget(cfg, start, e)
  }

  /** The instant after the logged events and some more clock reads. */
  function Instant(cfg: Config, w: World, start: nat, log: seq<Event>, more: nat): nat {
    start + Worked(w, log) + Idled(w, Reads(cfg, log) + more)
  }

  /** How long a step of the backoff is, when `left` of the delay is still to be slept. */
  function StepLength(cfg: Config, start: nat, at: nat, left: nat): nat {
    var r, s := Remaining(OverallDeadline(cfg, start), at), Min(STEP, left);
    var bounded := if r.Some? then Min(s, r.value) else s;
    if bounded == 0 then MILLISECOND else bounded
  }

  /** The last attempt ended busy and another one is allowed. */
  predicate Retries(w: World, maxAttempts: nat, log: seq<Event>) {
    var n := Spawns(log);
    1 <= n < maxAttempts && w.reply(n).Ok? && Busy(w, w.reply(n).value)
  }

  /**
   * An event has its place in the log: an attempt comes first, or after exactly the configured delay of
   * sleep; a sleep is a step of a delay not yet slept, taken neither on a cancelled call nor with the
   * deadline passed; and both at the instant that the log accounts for.
   */
  predicate Follows(cfg: Config, w: World, start: nat, maxAttempts: nat, earlier: seq<Event>, e: Event) {
    && (earlier != [] ==> Retries(w, maxAttempts, earlier))
    && match e
       case Spawn(at, _) =>
         && (earlier != [] ==> Slept(earlier) == Delay(cfg))
         && at == Instant(cfg, w, start, earlier, if cfg.arming then 0 else 1)
       case Sleep(at, duration) =>
         && earlier != [] && Slept(earlier) < Delay(cfg)
         && !w.cancelled(Instant(cfg, w, start, earlier, 0))
         && !Over(OverallDeadline(cfg, start), Instant(cfg, w, start, earlier, 1))
         && at == Instant(cfg, w, start, earlier, 2)
         && duration == StepLength(cfg, start, at, Delay(cfg) - Slept(earlier))
  }

  predicate Paced(cfg: Config, w: World, start: nat, maxAttempts: nat, log: seq<Event>)
    decreases |log|
  {
    log == [] ||
      (Paced(cfg, w, start, maxAttempts, log[..|log| - 1])
       && Follows(cfg, w, start, maxAttempts, log[..|log| - 1], log[|log| - 1]))
  }

  /** Clock reads take no time, and an attempt with a budget ends within it. */
  ghost predicate Prompt(w: World) {
    (forall k :: w.passes(k) == 0) && forall k, b :: w.takes(k, Some(b)) <= b
  }

  predicate NotPast(deadline: Option<nat>, now: nat) {
    deadline.Some? ==> now <= deadline.value
  }

  predicate Over(deadline: Option<nat>, now: nat) {
    deadline.Some? && now >= deadline.value
  }

  /** The log is in order, and it and the reads account for the clock. */
  predicate Settled(cfg: Config, w: World, start: nat, maxAttempts: nat, clock: Clock, log: seq<Event>) {
    && clock.now >= start && log != [] && AllInBudget(cfg, start, log)
    && Paced(cfg, w, start, maxAttempts, log) && Accounted(w, start, clock, log)
  }

  /** The clock stands between two steps of a delay, or at its end. */
  predicate Pausing(cfg: Config, w: World, start: nat, maxAttempts: nat, clock: Clock, log: seq<Event>) {
    && Settled(cfg, w, start, maxAttempts, clock, log) && clock.readings == Reads(cfg, log)
    && Retries(w, maxAttempts, log)
  }

  lemma LogEvent(cfg: Config, w: World, start: nat, maxAttempts: nat, log: seq<Event>, e: Event)
    requires AllInBudget(cfg, start, log) && Paced(cfg, w, start, maxAttempts, log)
    requires InBudget(cfg, start, e) && Follows(cfg, w, start, maxAttempts, log, e)
    ensures AllInBudget(cfg, start, log + [e]) && Paced(cfg, w, start, maxAttempts, log + [e])
  {
    assert (log + [e])[..|log|] == log;
  }

  lemma LogSleep(cfg: Config, w: World, start: nat, maxAttempts: nat, clock: Clock, log: seq<Event>)
    requires Pausing(cfg, w, start, maxAttempts, clock, log) && Slept(log) < Delay(cfg)
    requires !w.cancelled(clock.now) && !Over(OverallDeadline(cfg, start), Read(w, clock).now)
    ensures var c := Read(w, Read(w, clock));
      var s := StepLength(cfg, start, c.now, Delay(cfg) - Slept(log));
      var log' := log + [Sleep(c.now, s)];
      && Pausing(cfg, w, start, maxAttempts, Clock(c.now + s, c.readings), log')
      && Spawns(log') == Spawns(log) && Slept(log') == Slept(log) + s
      && Reads(cfg, log') == Reads(cfg, log) + 2
  {
    var c := Read(w, Read(w, clock));
    var e := Sleep(c.now, StepLength(cfg, start, c.now, Delay(cfg) - Slept(log)));
    SleepFits(cfg, w, start, maxAttempts, clock, log);
    SettledRead(cfg, w, start, maxAttempts, clock, log);
    SettledRead(cfg, w, start, maxAttempts, Read(w, clock), log);
    Append(cfg, w, log, e);
    LogEvent(cfg, w, start, maxAttempts, log, e);
  }

  lemma SleepFits(cfg: Config, w: World, start: nat, maxAttempts: nat, clock: Clock, log: seq<Event>)
    requires log != [] && Accounted(w, start, clock, log) && clock.readings == Reads(cfg, log)
    requires Retries(w, maxAttempts, log) && Slept(log) < Delay(cfg)
    requires !w.cancelled(clock.now) && !Over(OverallDeadline(cfg, start), Read(w, clock).now)
    ensures var c := Read(w, Read(w, clock));
      var e := Sleep(c.now, StepLength(cfg, start, c.now, Delay(cfg) - Slept(log)));
      InBudget(cfg, start, e) && Follows(cfg, w, start, maxAttempts, log, e)
  {
    ReadTwice(w, clock);
  }

  lemma ReadTwice(w: World, clock: Clock)
    ensures Read(w, clock).now + Idled(w, clock.readings) == clock.now + Idled(w, clock.readings + 1)
    ensures Read(w, Read(w, clock)).now + Idled(w, clock.readings) == clock.now + Idled(w, clock.readings + 2)
  {
  }

  /** Why a backoff stopped early. */
  predicate Stops(cfg: Config, w: World, start: nat, clock: Clock, log: seq<Event>, stop: Error) {
    && Slept(log) < Delay(cfg)
    && match stop
       case Cancelled => w.cancelled(clock.now) && clock.readings == Reads(cfg, log)
       case TimedOut(elapsed) =>
         && !w.cancelled(Instant(cfg, w, start, log, 0))
         && Over(OverallDeadline(cfg, start), Instant(cfg, w, start, log, 1))
         && Over(OverallDeadline(cfg, start), clock.now)
         && clock.now == start + elapsed && clock.readings == Reads(cfg, log) + 2
       case Other => false
  }

  /** One step of the sleep, which first notices a cancel and the deadline. */
  method SleepStep(
    cfg: Config, w: World, start: nat, ghost maxAttempts: nat, sleepLeft: nat, clock: Clock, log: seq<Event>)
    returns (stop: Option<Error>, s: nat, clock': Clock, log': seq<Event>)
    requires Pausing(cfg, w, start, maxAttempts, clock, log) && 0 < sleepLeft == Delay(cfg) - Slept(log)
    ensures Settled(cfg, w, start, maxAttempts, clock', log') && Spawns(log') == Spawns(log)
    ensures clock'.now >= clock.now
    ensures if stop.Some? then log' == log && Stops(cfg, w, start, clock', log, stop.value)
            else Pausing(cfg, w, start, maxAttempts, clock', log') && s > 0 && Slept(log') == Slept(log) + s
    ensures stop.None? && s > sleepLeft ==> Over(OverallDeadline(cfg, start), clock'.now)
    ensures Prompt(w) && NotPast(OverallDeadline(cfg, start), clock.now) ==>
      NotPast(OverallDeadline(cfg, start), clock'.now)
  {
    var deadline := OverallDeadline(cfg, start);
    clock', log', s := clock, log, 0;
    if w.cancelled(clock'.now) {
      return Some(Cancelled), s, clock', log';
    }
    clock' := Read(w, clock');
    if Remaining(deadline, clock'.now) == Some(0) {
      clock' := Read(w, clock');
      return Some(TimedOut(clock'.now - start)), s, clock', log';
    }
    s, clock', log' := Nap(cfg, w, start, maxAttempts, sleepLeft, clock, clock', log);
    stop := None;
  }

  /** The sleep of one step, `before` being the clock at its start and `clock` the one just read. */
  method Nap(
    cfg: Config, w: World, start: nat, ghost maxAttempts: nat, sleepLeft: nat,
    ghost before: Clock, clock: Clock, log: seq<Event>)
    returns (s: nat, clock': Clock, log': seq<Event>)
    requires Pausing(cfg, w, start, maxAttempts, before, log) && 0 < sleepLeft == Delay(cfg) - Slept(log)
    requires !w.cancelled(before.now) && clock == Read(w, before) && !Over(OverallDeadline(cfg, start), clock.now)
    ensures Pausing(cfg, w, start, maxAttempts, clock', log') && Spawns(log') == Spawns(log)
    ensures s > 0 && Slept(log') == Slept(log) + s && clock' == Clock(Read(w, clock).now + s, clock.readings + 1)
    ensures s <= sleepLeft || (s == MILLISECOND && Over(OverallDeadline(cfg, start), clock'.now))
    ensures Prompt(w) ==> NotPast(OverallDeadline(cfg, start), clock'.now)
  {
    LogSleep(cfg, w, start, maxAttempts, before, log);
    clock' := Read(w, clock);
    var r := Remaining(OverallDeadline(cfg, start), clock'.now);
    s := Min(STEP, sleepLeft);
    if r.Some? {
      s := Min(s, r.value);
    }
    if s == 0 {
      s := MILLISECOND;
    }
    log' := log + [Sleep(clock'.now, s)];
    clock' := Clock(clock'.now + s, clock'.readings);
  }

  /** The delay has been slept: exactly, but for a last millisecond once the deadline has passed. */
  predicate Rested(cfg: Config, start: nat, clock: Clock, log: seq<Event>) {
    Slept(log) == Delay(cfg) || (Slept(log) > Delay(cfg) && Over(OverallDeadline(cfg, start), clock.now))
  }

  /** The sleep between two attempts, cut into steps that notice a cancel and the deadline. */
  method Backoff(cfg: Config, w: World, start: nat, ghost maxAttempts: nat, clock: Clock, log: seq<Event>)
    returns (stop: Option<Error>, clock': Clock, log': seq<Event>)
    requires Pausing(cfg, w, start, maxAttempts, clock, log) && log[|log| - 1].Spawn?
    ensures Settled(cfg, w, start, maxAttempts, clock', log') && Spawns(log') == Spawns(log)
    ensures clock'.now >= clock.now
    ensures if stop.Some? then Stops(cfg, w, start, clock', log', stop.value)
            else Pausing(cfg, w, start, maxAttempts, clock', log') && Rested(cfg, start, clock', log')
    ensures Prompt(w) && NotPast(OverallDeadline(cfg, start), clock.now) ==>
      NotPast(OverallDeadline(cfg, start), clock'.now)
  {
    var deadline := OverallDeadline(cfg, start);
    stop, clock', log' := None, clock, log;
    var sleepLeft: nat := Delay(cfg);
    while sleepLeft > 0
      invariant Pausing(cfg, w, start, maxAttempts, clock', log') && Spawns(log') == Spawns(log)
      invariant clock'.now >= clock.now && stop.None?
      invariant Slept(log') + sleepLeft == Delay(cfg) || (sleepLeft == 0 && Rested(cfg, start, clock', log'))
      invariant Prompt(w) && NotPast(deadline, clock.now) ==> NotPast(deadline, clock'.now)
    {
      var s;
      stop, s, clock', log' := SleepStep(cfg, w, start, maxAttempts, sleepLeft, clock', log');
      if stop.Some? {
        return;
      }
      sleepLeft := if sleepLeft >= s then sleepLeft - s else 0;
    }
  }

  /** What the last attempt's output looks like when it is returned: its stderr may have been added to. */
  predicate Returns(w: World, n: nat, out: Output) {
    && w.reply(n).Ok?
    && out.stdout == w.reply(n).value.stdout
    && out.exitCode == w.reply(n).value.exitCode
    && w.reply(n).value.stderr <= out.stderr
  }

  /** The first `n` attempts all ended busy. */
  predicate AllBusy(w: World, n: nat) {
    forall k :: 1 <= k <= n ==> w.reply(k).Ok? && Busy(w, w.reply(k).value)
  }

  /** Cargo's last words when the attempts are used up. */
  function WithGiveUp(w: World, out: Output, maxAttempts: nat): Output {
    var gap := if out.stderr != "" && out.stderr[|out.stderr| - 1] != '\n' then "\n" else "";
    out.(stderr := out.stderr + gap + w.giveUp(maxAttempts, out.exitCode) + "\n")
  }

  /** The output of the last attempt allowed when it, too, ended busy. */
  function LastWords(w: World, maxAttempts: nat, out: Output): Output {
    var reported := out.(stderr := out.stderr + w.holders(maxAttempts));
    if maxAttempts > 1 then WithGiveUp(w, reported, maxAttempts) else reported
  }

  /** An output is the last attempt's, after attempts that all ended busy, and busy only if it was the last allowed. */
  predicate RightOutput(w: World, maxAttempts: nat, spawns: nat, r: Result<Output, Error>) {
    r.Ok? ==>
      && 1 <= spawns <= maxAttempts
      && AllBusy(w, spawns - 1)
      && Returns(w, spawns, r.value)
      && if Busy(w, w.reply(spawns).value)
         then spawns == maxAttempts && r.value == LastWords(w, maxAttempts, w.reply(spawns).value)
         else r == w.reply(spawns)
  }

  /** The attempt itself failed; `late` tells whether the clock was read for the elapsed time. */
  predicate AttemptFailed(cfg: Config, w: World, spawns: nat, e: Error, late: bool) {
    && spawns >= 1 && AllBusy(w, spawns - 1) && w.reply(spawns).Err?
    && (late <==> w.reply(spawns).error.TimedOut? && !cfg.arming)
    && if late then e.TimedOut? else e == w.reply(spawns).error
  }

  /** The budget was used up before an attempt could start. */
  predicate NoTimeToStart(cfg: Config, w: World, start: nat, log: seq<Event>, e: Error, finish: Clock) {
    && (log == [] || Slept(log) >= Delay(cfg))
    && e.TimedOut? && finish.now == start + e.elapsed
    && if cfg.arming then log == [] && cfg.timeout == Some(0) && finish.readings == 1
       else
         && Over(OverallDeadline(cfg, start), Instant(cfg, w, start, log, 1))
         && Over(OverallDeadline(cfg, start), finish.now) && finish.readings == Reads(cfg, log) + 2
  }

  /** The call ended with the last attempt, or, with attempts left, because of a cancel or the deadline. */
  predicate RightEnd(
    cfg: Config, w: World, start: nat, maxAttempts: nat, log: seq<Event>, r: Result<Output, Error>, finish: Clock)
  {
    && finish.now >= start
    && match r
       case Ok(_) => log != [] && log[|log| - 1].Spawn? && finish.readings == Reads(cfg, log)
       case Err(e) =>
         && (e.TimedOut? && !cfg.arming ==> e.elapsed == finish.now - start)
         && if AllBusy(w, Spawns(log)) then
              && (log != [] ==> Retries(w, maxAttempts, log))
              && ((log != [] && Stops(cfg, w, start, finish, log, e)) || NoTimeToStart(cfg, w, start, log, e, finish))
            else
              var late := w.reply(Spawns(log)).Err? && w.reply(Spawns(log)).error.TimedOut? && !cfg.arming;
              && AttemptFailed(cfg, w, Spawns(log), e, late)
              && log != [] && log[|log| - 1].Spawn?
              && finish.readings == Reads(cfg, log) + if late then 1 else 0
  }

  /** The answer, the effects and the clock are as they should be. */
  predicate Right(
    cfg: Config, w: World, start: nat, maxAttempts: nat, r: Result<Output, Error>, log: seq<Event>, finish: Clock)
  {
    && AllInBudget(cfg, start, log) && Paced(cfg, w, start, maxAttempts, log)
    && RightOutput(w, maxAttempts, Spawns(log), r) && RightEnd(cfg, w, start, maxAttempts, log, r, finish)
    && Accounted(w, start, finish, log)
  }

  /** One attempt: the final answer, or none when the next attempt is due. */
  method Attempt(cfg: Config, w: World, start: nat, maxAttempts: nat, attempt: nat, budget: Option<nat>, clock: Clock)
    returns (answer: Option<Result<Output, Error>>, clock': Clock)
    requires clock.now >= start && 1 <= attempt <= maxAttempts && AllBusy(w, attempt - 1)
    ensures answer.None? ==> AllBusy(w, attempt) && attempt < maxAttempts
    ensures answer.Some? ==> RightOutput(w, maxAttempts, attempt, answer.value)
    ensures var back := Clock(clock.now + w.takes(attempt, budget), clock.readings);
      if answer.Some? && answer.value.Err? then
        var late := clock' != back;
        && AttemptFailed(cfg, w, attempt, answer.value.error, late)
        && (late ==> clock' == Read(w, back) && answer.value.error.elapsed == clock'.now - start)
      else clock' == back
  {
    clock' := Clock(clock.now + w.takes(attempt, budget), clock.readings);
    var reply := w.reply(attempt);
    if reply.Err? {
      if reply.error.TimedOut? && !cfg.arming {
        clock' := Read(w, clock');
        return Some(Err(TimedOut(clock'.now - start))), clock';
      }
      return Some(reply), clock';
    }
    var out := reply.value;
    if !Busy(w, out) {
      return Some(Ok(out)), clock';
    }
    out := out.(stderr := out.stderr + w.holders(attempt));
    if attempt == maxAttempts {
      return Some(Ok(if maxAttempts > 1 then WithGiveUp(w, out, maxAttempts) else out)), clock';
    }
    answer := None;
  }

  /** The budget of the first attempt. */
  function FirstBudget(cfg: Config, w: World, start: nat): Option<nat> {
    if cfg.arming then cfg.timeout else Remaining(OverallDeadline(cfg, start), start + w.passes(0))
  }

  /** The loop is about to make attempt number `attempt`. */
  predicate Underway(
    cfg: Config, w: World, start: nat, maxAttempts: nat, attempt: nat, clock: Clock, log: seq<Event>)
  {
    && 1 <= attempt <= maxAttempts && Spawns(log) == attempt - 1 && AllBusy(w, attempt - 1)
    && (if attempt == 1 then log == [] else FirstBudget(cfg, w, start) != Some(0))
    && (log != [] ==> Retries(w, maxAttempts, log) && Rested(cfg, start, clock, log))
  }

  /** What holds between attempts, and of the answer once there is one. */
  predicate Progress(
    cfg: Config, w: World, start: nat, maxAttempts: nat, attempt: nat,
    answer: Option<Result<Output, Error>>, clock: Clock, log: seq<Event>)
  {
    if answer.None? then
      && clock.now >= start && Accounted(w, start, clock, log) && clock.readings == Reads(cfg, log)
      && AllInBudget(cfg, start, log) && Paced(cfg, w, start, maxAttempts, log)
      && Underway(cfg, w, start, maxAttempts, attempt, clock, log)
    else
      && Right(cfg, w, start, maxAttempts, answer.value, log, clock)
      && Spawns(log) <= maxAttempts && (Spawns(log) == 0 <==> FirstBudget(cfg, w, start) == Some(0))
  }

  lemma LogSpawn(
    cfg: Config, w: World, start: nat, maxAttempts: nat, clock: Clock, log: seq<Event>, budget: Option<nat>)
    requires AllInBudget(cfg, start, log) && Paced(cfg, w, start, maxAttempts, log)
    requires Accounted(w, start, clock, log) && clock.now >= start
    requires clock.readings == Reads(cfg, log) + if cfg.arming then 0 else 1
    requires InBudget(cfg, start, Spawn(clock.now, budget))
    requires log != [] ==> Retries(w, maxAttempts, log) && Slept(log) == Delay(cfg)
    ensures var log' := log + [Spawn(clock.now, budget)];
      var back := Clock(clock.now + w.takes(Spawns(log) + 1, budget), clock.readings);
      && Spawns(log') == Spawns(log) + 1 && clock.readings == Reads(cfg, log')
      && Settled(cfg, w, start, maxAttempts, back, log')
  {
    Append(cfg, w, log, Spawn(clock.now, budget));
    LogEvent(cfg, w, start, maxAttempts, log, Spawn(clock.now, budget));
  }

  lemma SettledRead(cfg: Config, w: World, start: nat, maxAttempts: nat, clock: Clock, log: seq<Event>)
    requires Settled(cfg, w, start, maxAttempts, clock, log)
    ensures Settled(cfg, w, start, maxAttempts, Read(w, clock), log)
  {
  }

  /** The backoff after a busy attempt: an error, or none when the next attempt is due. */
  method Wait(cfg: Config, w: World, start: nat, maxAttempts: nat, attempt: nat, clock: Clock, log: seq<Event>)
    returns (answer: Option<Result<Output, Error>>, clock': Clock, log': seq<Event>)
    requires Pausing(cfg, w, start, maxAttempts, clock, log) && log[|log| - 1].Spawn?
    requires 1 <= attempt < maxAttempts && AllBusy(w, attempt) && Spawns(log) == attempt
    requires FirstBudget(cfg, w, start) != Some(0)
    ensures Progress(cfg, w, start, maxAttempts, attempt + 1, answer, clock', log')
    ensures Prompt(w) && NotPast(OverallDeadline(cfg, start), clock.now) ==>
      NotPast(OverallDeadline(cfg, start), clock'.now)
  {
    var stop;
    stop, clock', log' := Backoff(cfg, w, start, maxAttempts, clock, log);
    answer := if stop.Some? then Some(Err(stop.value)) else None;
  }

  lemma Answered(
    cfg: Config, w: World, start: nat, maxAttempts: nat, attempt: nat, answer: Result<Output, Error>,
    clock: Clock, log: seq<Event>)
    requires Settled(cfg, w, start, maxAttempts, clock, log) && log[|log| - 1].Spawn?
    requires 1 <= Spawns(log) == attempt <= maxAttempts && FirstBudget(cfg, w, start) != Some(0)
    requires RightOutput(w, maxAttempts, attempt, answer)
    requires var late := clock.readings != Reads(cfg, log);
      && (late ==> clock.readings == Reads(cfg, log) + 1 && answer.Err?)
      && (answer.Err? ==> AttemptFailed(cfg, w, attempt, answer.error, late))
      && (late ==> answer.error.TimedOut? && answer.error.elapsed == clock.now - start)
    ensures Progress(cfg, w, start, maxAttempts, attempt + 1, Some(answer), clock, log)
  {
  }

  lemma PromptAttempt(cfg: Config, w: World, start: nat, clock: Clock, attempt: nat, budget: Option<nat>)
    requires InBudget(cfg, start, Spawn(clock.now, budget))
    ensures var back := Clock(clock.now + w.takes(attempt, budget), clock.readings);
      Prompt(w) ==>
        Read(w, back).now == back.now && NotPast(OverallDeadline(cfg, start), back.now)
  {
  }

  /** Attempt number `attempt` has been logged and takes place. */
  predicate Launched(
    cfg: Config, w: World, start: nat, maxAttempts: nat, attempt: nat, budget: Option<nat>,
    clock: Clock, log: seq<Event>)
  {
    && 1 <= attempt <= maxAttempts && AllBusy(w, attempt - 1) && FirstBudget(cfg, w, start) != Some(0)
    && log != [] && log[|log| - 1] == Spawn(clock.now, budget) && Spawns(log) == attempt
    && clock.readings == Reads(cfg, log) && clock.now >= start && InBudget(cfg, start, Spawn(clock.now, budget))
    && var back := Clock(clock.now + w.takes(attempt, budget), clock.readings);
    Settled(cfg, w, start, maxAttempts, back, log) && Settled(cfg, w, start, maxAttempts, Read(w, back), log)
  }

  lemma Launch(
    cfg: Config, w: World, start: nat, maxAttempts: nat, attempt: nat, budget: Option<nat>,
    clock: Clock, log: seq<Event>)
    requires clock.now >= start && Accounted(w, start, clock, log)
    requires AllInBudget(cfg, start, log) && Paced(cfg, w, start, maxAttempts, log)
    requires Underway(cfg, w, start, maxAttempts, attempt, clock, log) && InBudget(cfg, start, Spawn(clock.now, budget))
    requires clock.readings == Reads(cfg, log) + if cfg.arming then 0 else 1
    requires FirstBudget(cfg, w, start) != Some(0)
    ensures Launched(cfg, w, start, maxAttempts, attempt, budget, clock, log + [Spawn(clock.now, budget)])
  {
    assert log != [] ==> Slept(log) == Delay(cfg);
    LogSpawn(cfg, w, start, maxAttempts, clock, log, budget);
    LastIs(log, Spawn(clock.now, budget));
    SettledRead(cfg, w, start, maxAttempts, Clock(clock.now + w.takes(attempt, budget), clock.readings),
                log + [Spawn(clock.now, budget)]);
  }

  lemma LastIs<T>(s: seq<T>, x: T)
    ensures s + [x] != [] && (s + [x])[|s + [x]| - 1] == x
  {
  }

  /** The attempt that has just been logged, and what follows it. */
  method Try(
    cfg: Config, w: World, start: nat, maxAttempts: nat, attempt: nat, budget: Option<nat>,
    clock: Clock, log: seq<Event>)
    returns (answer: Option<Result<Output, Error>>, clock': Clock, log': seq<Event>)
    requires Launched(cfg, w, start, maxAttempts, attempt, budget, clock, log)
    ensures Progress(cfg, w, start, maxAttempts, attempt + 1, answer, clock', log')
    ensures Prompt(w) && NotPast(OverallDeadline(cfg, start), clock.now) ==>
      NotPast(OverallDeadline(cfg, start), clock'.now)
  {
    log' := log;
    answer, clock' := Attempt(cfg, w, start, maxAttempts, attempt, budget, clock);
    PromptAttempt(cfg, w, start, clock, attempt, budget);
    if answer.None? {
      answer, clock', log' := Wait(cfg, w, start, maxAttempts, attempt, clock', log');
    } else {
      Answered(cfg, w, start, maxAttempts, attempt, answer.value, clock', log');
    }
  }

  lemma OutOfTime(
    cfg: Config, w: World, start: nat, maxAttempts: nat, attempt: nat, clock: Clock, log: seq<Event>, finish: Clock)
    requires Progress(cfg, w, start, maxAttempts, attempt, None, clock, log)
    requires if cfg.arming then cfg.timeout == Some(0) && finish == Read(w, clock)
             else Over(OverallDeadline(cfg, start), Read(w, clock).now) && finish == Read(w, Read(w, clock))
    ensures Progress(cfg, w, start, maxAttempts, attempt + 1, Some(Err(TimedOut(finish.now - start))), finish, log)
  {
  }

  /** One turn of the attempt loop. */
  method Turn(cfg: Config, w: World, start: nat, maxAttempts: nat, attempt: nat, clock: Clock, log: seq<Event>)
    returns (answer: Option<Result<Output, Error>>, clock': Clock, log': seq<Event>)
    requires Progress(cfg, w, start, maxAttempts, attempt, None, clock, log)
    ensures Progress(cfg, w, start, maxAttempts, attempt + 1, answer, clock', log')
    ensures Prompt(w) && NotPast(OverallDeadline(cfg, start), clock.now) ==>
      NotPast(OverallDeadline(cfg, start), clock'.now)
  {
    clock', log' := clock, log;
    var budget := cfg.timeout;
    if !cfg.arming {
      clock' := Read(w, clock');
      budget := Remaining(OverallDeadline(cfg, start), clock'.now);
    }
    if budget == Some(0) {
      clock' := Read(w, clock');
      answer := Some(Err(TimedOut(clock'.now - start)));
      OutOfTime(cfg, w, start, maxAttempts, attempt, clock, log, clock');
    } else {
      Launch(cfg, w, start, maxAttempts, attempt, budget, clock', log);
      log' := log + [Spawn(clock'.now, budget)];
      answer, clock', log' := Try(cfg, w, start, maxAttempts, attempt, budget, clock', log');
    }
  }

  lemma {:induction false} NothingIdled(w: World, n: nat)
    ensures Prompt(w) ==> Idled(w, n) == 0
  {
    if n > 0 {
      NothingIdled(w, n - 1);
    }
  }

  /**
   * `run_cargo_streaming_with_timeout`, with the spawns and sleeps it causes. `finish` is the clock at its
   * end: the spawns, the sleeps and the clock reads account for it.
   */
  method RunWithRetry(cfg: Config, w: World, args: seq<string>, start: nat)
    returns (r: Result<Output, Error>, log: seq<Event>, finish: Clock)
    ensures Spawns(log) <= MaxAttempts(cfg, args)
    ensures Spawns(log) == 0 <==> FirstBudget(cfg, w, start) == Some(0)
    ensures Right(cfg, w, start, MaxAttempts(cfg, args), r, log, finish)
    ensures Reads(cfg, log) <= finish.readings <= Reads(cfg, log) + 2
    ensures Prompt(w) && !cfg.arming && cfg.timeout.Some? && start + cfg.timeout.value <= cfg.lastInstant ==>
      finish.now <= start + cfg.timeout.value
    ensures Prompt(w) ==> NotPast(OverallDeadline(cfg, start), finish.now)
    ensures Prompt(w) ==> finish.now == start + Worked(w, log) && (cfg.timeout != Some(0) ==> Spawns(log) >= 1)
  {
    var maxAttempts := MaxAttempts(cfg, args);
    var attempt := 1;
    var answer: Option<Result<Output, Error>> := None;
    finish, log := Clock(start, 0), [];
    while answer.None?
      invariant Progress(cfg, w, start, maxAttempts, attempt, answer, finish, log)
      invariant Prompt(w) ==> NotPast(OverallDeadline(cfg, start), finish.now)
      decreases answer.None?, if answer.None? then maxAttempts - attempt else 0
    {
      answer, finish, log := Turn(cfg, w, start, maxAttempts, attempt, finish, log);
      attempt := attempt + 1;
    }
    r := answer.value;
    NothingIdled(w, finish.readings);
  }

  // ----- the contract leaves no choice -----

  lemma NextDetermined(cfg: Config, w: World, start: nat, maxAttempts: nat, log: seq<Event>, e: Event, f: Event)
    requires InBudget(cfg, start, e) && Follows(cfg, w, start, maxAttempts, log, e)
    requires InBudget(cfg, start, f) && Follows(cfg, w, start, maxAttempts, log, f)
    ensures e == f
  {
  }

  lemma {:induction false} EventFollows(cfg: Config, w: World, start: nat, maxAttempts: nat, log: seq<Event>, k: nat)
    requires Paced(cfg, w, start, maxAttempts, log) && k < |log|
    ensures Follows(cfg, w, start, maxAttempts, log[..k], log[k])
    decreases |log|
  {
    var n := |log| - 1;
    if k < n {
      EventFollows(cfg, w, start, maxAttempts, log[..n], k);
      assert log[..n][..k] == log[..k];
    }
  }

  lemma {:induction false} SameUpTo(
    cfg: Config, w: World, start: nat, maxAttempts: nat, a: seq<Event>, b: seq<Event>, k: nat)
    requires AllInBudget(cfg, start, a) && Paced(cfg, w, start, maxAttempts, a)
    requires AllInBudget(cfg, start, b) && Paced(cfg, w, start, maxAttempts, b)
    requires k <= |a| && k <= |b|
    ensures a[..k] == b[..k]
    decreases k
  {
    if k > 0 {
      var n := k - 1;
      SameUpTo(cfg, w, start, maxAttempts, a, b, n);
      EventFollows(cfg, w, start, maxAttempts, a, n);
      EventFollows(cfg, w, start, maxAttempts, b, n);
      NextDetermined(cfg, w, start, maxAttempts, a[..n], a[n], b[n]);
      PrefixStep(a, n);
      PrefixStep(b, n);
    }
  }

  /** Where one run may end, none goes on. */
  lemma EndIsEnd(
    cfg: Config, w: World, start: nat, maxAttempts: nat,
    r: Result<Output, Error>, log: seq<Event>, finish: Clock, e: Event)
    requires Right(cfg, w, start, maxAttempts, r, log, finish) && InBudget(cfg, start, e)
    ensures !Follows(cfg, w, start, maxAttempts, log, e)
  {
    if r.Err? && !AllBusy(w, Spawns(log)) {
      assert w.reply(Spawns(log)).Err?;
    }
  }

  lemma NotLonger(
    cfg: Config, w: World, start: nat, maxAttempts: nat,
    r: Result<Output, Error>, log: seq<Event>, finish: Clock,
    r': Result<Output, Error>, log': seq<Event>, finish': Clock)
    requires Right(cfg, w, start, maxAttempts, r, log, finish)
    requires Right(cfg, w, start, maxAttempts, r', log', finish')
    ensures |log'| <= |log|
  {
    if |log| < |log'| {
      SameUpTo(cfg, w, start, maxAttempts, log, log', |log|);
      assert log[..|log|] == log;
      EventFollows(cfg, w, start, maxAttempts, log', |log|);
      EndIsEnd(cfg, w, start, maxAttempts, r, log, finish, log'[|log|]);
    }
  }

  lemma SameEnd(
    cfg: Config, w: World, start: nat, maxAttempts: nat, log: seq<Event>,
    r: Result<Output, Error>, finish: Clock, r': Result<Output, Error>, finish': Clock)
    requires Right(cfg, w, start, maxAttempts, r, log, finish)
    requires Right(cfg, w, start, maxAttempts, r', log, finish')
    ensures r == r' && finish == finish'
  {
  }

  /** The world alone decides the answer, every spawn and sleep with its instant, and the time it takes. */
  lemma OneOutcome(
    cfg: Config, w: World, start: nat, maxAttempts: nat,
    r: Result<Output, Error>, log: seq<Event>, finish: Clock,
    r': Result<Output, Error>, log': seq<Event>, finish': Clock)
    requires Right(cfg, w, start, maxAttempts, r, log, finish)
    requires Right(cfg, w, start, maxAttempts, r', log', finish')
    ensures r == r' && log == log' && finish == finish'
  {
    NotLonger(cfg, w, start, maxAttempts, r, log, finish, r', log', finish');
    NotLonger(cfg, w, start, maxAttempts, r', log', finish', r, log, finish);
    SameUpTo(cfg, w, start, maxAttempts, log, log', |log|);
    assert log[..|log|] == log && log'[..|log'|] == log';
    SameEnd(cfg, w, start, maxAttempts, log, r, finish, r', finish');
  }

  // ----- the contract in plain terms -----

  /** A representable timeout caps every attempt and every step of a delay. */
  lemma CappedRun(
    cfg: Config, w: World, start: nat, maxAttempts: nat,
    r: Result<Output, Error>, log: seq<Event>, finish: Clock, t: nat, k: nat)
    requires Right(cfg, w, start, maxAttempts, r, log, finish) && k < |log|
    requires !cfg.arming && cfg.timeout == Some(t) && start + t <= cfg.lastInstant
    ensures match log[k]
      case Spawn(at, budget) => at < start + t && budget == Some(start + t - at)
      case Sleep(at, duration) =>
        && Instant(cfg, w, start, log[..k], 1) < start + t
        && 0 < duration <= 50_000_000
        && (at + duration <= start + t || (at >= start + t && duration == 1_000_000))
  {
    assert InBudget(cfg, start, log[k]);
    EventFollows(cfg, w, start, maxAttempts, log, k);
  }

  /** Without one, an attempt has the budget that its output arms, or none, and nothing shortens a delay. */
  lemma UncappedRun(
    cfg: Config, w: World, start: nat, maxAttempts: nat,
    r: Result<Output, Error>, log: seq<Event>, finish: Clock, k: nat)
    requires Right(cfg, w, start, maxAttempts, r, log, finish) && k < |log|
    requires cfg.arming || cfg.timeout.None? || start + cfg.timeout.value > cfg.lastInstant
    ensures match log[k]
      case Spawn(_, budget) => budget == (if cfg.arming then cfg.timeout else None) && budget != Some(0)
      case Sleep(_, duration) =>
        duration == Min(50_000_000, cfg.retryDelayMs * 1_000_000 - Slept(log[..k]))
  {
    assert InBudget(cfg, start, log[k]);
    EventFollows(cfg, w, start, maxAttempts, log, k);
  }

  /** The first event is an attempt, and each later attempt follows the whole configured delay. */
  lemma DelayBeforeRetry(
    cfg: Config, w: World, start: nat, maxAttempts: nat,
    r: Result<Output, Error>, log: seq<Event>, finish: Clock, k: nat)
    requires Right(cfg, w, start, maxAttempts, r, log, finish) && k < |log|
    ensures k == 0 ==> log[k].Spawn?
    ensures k > 0 && log[k].Spawn? ==> Slept(log[..k]) == cfg.retryDelayMs * 1_000_000
  {
    EventFollows(cfg, w, start, maxAttempts, log, k);
  }

  /** Every attempt but the last failed with a busy pattern in its output. */
  lemma {:induction false} RetriedWhenBusy(
    cfg: Config, w: World, start: nat, maxAttempts: nat,
    r: Result<Output, Error>, log: seq<Event>, finish: Clock, n: nat)
    requires Right(cfg, w, start, maxAttempts, r, log, finish) && 1 <= n < Spawns(log)
    ensures w.reply(n).Ok?
    ensures var out := w.reply(n).value;
      out.exitCode != 0 && (w.isBusyError(out.stderr) || w.isBusyError(out.stdout))
  {
    assert AllBusy(w, Spawns(log) - 1);
    assert Busy(w, w.reply(n).value);
  }

  /**
   * An output that is no busy failure is returned as it is. A busy one is returned only after the last
   * attempt allowed, with the report on the holders and, if there were retries, a last line of its own.
   */
  lemma OutputReturned(
    cfg: Config, w: World, start: nat, maxAttempts: nat,
    r: Result<Output, Error>, log: seq<Event>, finish: Clock)
    requires Right(cfg, w, start, maxAttempts, r, log, finish) && r.Ok?
    ensures var n := Spawns(log);
      && 1 <= n <= maxAttempts && w.reply(n).Ok?
      && var out := w.reply(n).value;
      if out.exitCode == 0 || (!w.isBusyError(out.stderr) && !w.isBusyError(out.stdout)) then r.value == out
      else
        var said, last := out.stderr + w.holders(n), w.giveUp(n, out.exitCode) + "\n";
        && n == maxAttempts && r.value.stdout == out.stdout && r.value.exitCode == out.exitCode
        && if n == 1 then r.value.stderr == said
           else if said == "" || said[|said| - 1] == '\n' then r.value.stderr == said + last
           else r.value.stderr == said + "\n" + last
  {
    var n := Spawns(log);
    if n == maxAttempts && Busy(w, w.reply(n).value) {
      LastWordsMeans(w, maxAttempts, w.reply(n).value);
    }
  }

  lemma LastWordsMeans(w: World, maxAttempts: nat, out: Output)
    ensures var said, last := out.stderr + w.holders(maxAttempts), w.giveUp(maxAttempts, out.exitCode) + "\n";
      LastWords(w, maxAttempts, out).stderr ==
        if maxAttempts <= 1 then said
        else if said == "" || said[|said| - 1] == '\n' then said + last
        else said + "\n" + last
  {
    var said := out.stderr + w.holders(maxAttempts);
    assert said + "" == said;
    Associate(said, w.giveUp(maxAttempts, out.exitCode), "\n");
    Associate(said + "\n", w.giveUp(maxAttempts, out.exitCode), "\n");
  }

  /**
   * An error is the last attempt's own; or a cancel seen while some of a delay is still to be slept; or a
   * timeout, measured from the start, once the cap has passed or when there is no budget at all.
   */
  lemma ErrorMeans(
    cfg: Config, w: World, start: nat, maxAttempts: nat,
    r: Result<Output, Error>, log: seq<Event>, finish: Clock)
    requires Right(cfg, w, start, maxAttempts, r, log, finish) && r.Err?
    ensures var n, e := Spawns(log), r.error;
      && (e == Other ==> n >= 1 && w.reply(n) == Err(Other))
      && (e == Cancelled ==>
            n >= 1 && (w.reply(n) == Err(Cancelled)
                       || (w.reply(n).Ok? && n < maxAttempts && w.cancelled(finish.now)
                           && Slept(log) < cfg.retryDelayMs * 1_000_000)))
      && (e.TimedOut? && !cfg.arming ==>
            finish.now == start + e.elapsed &&
            ((n >= 1 && w.reply(n).Err? && w.reply(n).error.TimedOut?)
             || (cfg.timeout.Some? && start + cfg.timeout.value <= cfg.lastInstant
                 && finish.now >= start + cfg.timeout.value)))
      && (e.TimedOut? && cfg.arming ==>
            (n >= 1 && w.reply(n) == Err(e))
            || (n == 0 && cfg.timeout == Some(0) && finish.now == start + e.elapsed))
  {
  }

  /** An attempt whose output is no busy failure ends the call. */
  lemma NoRetryAfterSuccess(
    cfg: Config, w: World, start: nat, maxAttempts: nat,
    r: Result<Output, Error>, log: seq<Event>, finish: Clock, n: nat)
    requires Right(cfg, w, start, maxAttempts, r, log, finish) && 1 <= n <= Spawns(log) && w.reply(n).Ok?
    requires var out := w.reply(n).value;
      out.exitCode == 0 || (!w.isBusyError(out.stderr) && !w.isBusyError(out.stdout))
    ensures n == Spawns(log) && r == w.reply(n)
  {
    if n < Spawns(log) {
      RetriedWhenBusy(cfg, w, start, maxAttempts, r, log, finish, n);
    } else {
      assert !Busy(w, w.reply(n).value);
    }
  }

  /** How many attempts there may be: several only for these subcommands, after a toolchain argument or none. */
  lemma AttemptLimit(cfg: Config, args: seq<string>)
    ensures var i := if |args| > 0 && |args[0]| > 0 && args[0][0] == '+' then 1 else 0;
      MaxAttempts(cfg, args) ==
        if cfg.retryEnabled && cfg.retryMaxAttempts > 1 && i < |args|
          && (args[i] == "check" || args[i] == "build" || args[i] == "test" || args[i] == "bench"
              || args[i] == "clippy" || args[i] == "fmt" || args[i] == "doc" || args[i] == "tree"
              || args[i] == "clean" || args[i] == "metadata")
        then cfg.retryMaxAttempts else 1
  {
  }

  /** A command that changes the manifest or the registry is never repeated. */
  lemma NeverRepeated(cfg: Config, args: seq<string>)
    requires |args| > 0 && args[0] in ["publish", "add", "remove"]
    ensures MaxAttempts(cfg, args) == 1
  {
    AttemptLimit(cfg, args);
    assert "publish"[0] == 'p' && "add"[0] == 'a' && "remove"[0] == 'r';
    assert |"publish"| == 7 && |"add"| == 3 && |"remove"| == 6;
    assert "publish" != "check" && "publish" != "build" && "publish" != "bench" && "publish" != "metadata";
  }
}
