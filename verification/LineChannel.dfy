/**
 * The stdout reader thread, the bounded line channel and the supervising thread
 * (invoke.rs, `run_cargo_streaming_once`), as a step system over every interleaving.
 */
module LineChannel {
  const CAPACITY := 256

  /** What one read of the pipe yields: a line, or an error such as text that is not UTF-8. */
  datatype Item = Good(line: string) | Bad

  datatype Message = LineMessage(line: string) | EofSentinel

  datatype Reader = Reading | Sending(m: Message) | Finished

  /** `killed` tells whether the supervisor joins after killing the child or after the end of output. */
  datatype Main = Polling | Draining | Joining(killed: bool) | Joined(killed: bool)

  datatype State = State(
    written: seq<Item>,
    pipe: seq<Item>,
    pipeOpen: bool,
    reader: Reader,
    queue: seq<Message>,
    receiverLive: bool,
    main: Main,
    delivered: seq<string>)

  const INITIAL := State([], [], true, Reading, [], true, Polling, [])

  datatype Step =
    | ChildWrites(item: Item)
    | ChildExits
    | ReaderReads
    | ReaderSends
    | MainReceives
    | MainDisconnected
    | MainAborts
    | MainDrains
    | MainJoins

  predicate Enabled(s: State, step: Step) {
    match step
    case ChildWrites(_) => s.pipeOpen
    case ChildExits => s.pipeOpen
    case ReaderReads => s.reader.Reading? && (s.pipe != [] || !s.pipeOpen)
    case ReaderSends => s.reader.Sending? && (!s.receiverLive || |s.queue| < CAPACITY)
    case MainReceives => s.main.Polling? && s.queue != []
    case MainDisconnected => s.main.Polling? && s.queue == [] && s.reader.Finished?
    case MainAborts => s.main.Polling?
    case MainDrains => s.main.Draining?
    case MainJoins => s.main.Joining? && s.reader.Finished?
  }

  function Apply(s: State, step: Step): State
    requires Enabled(s, step)
  {
    match step
    case ChildWrites(item) => s.(written := s.written + [item], pipe := s.pipe + [item])
    case ChildExits => s.(pipeOpen := false)
    case ReaderReads =>
      if s.pipe == [] then s.(reader := Sending(EofSentinel))
      else if s.pipe[0].Good? then s.(reader := Sending(LineMessage(s.pipe[0].line)), pipe := s.pipe[1..])
      else s.(reader := Sending(EofSentinel), pipe := s.pipe[1..])
    case ReaderSends =>
      if !s.receiverLive then s.(reader := Finished)
      else s.(queue := s.queue + [s.reader.m], reader := if s.reader.m.EofSentinel? then Finished else Reading)
    case MainReceives =>
      if s.queue[0].LineMessage? then s.(queue := s.queue[1..], delivered := s.delivered + [s.queue[0].line])
      else s.(queue := s.queue[1..], main := Draining)
    case MainDisconnected => s.(main := Draining)
    case MainAborts => s.(pipeOpen := false, receiverLive := false, queue := [], main := Joining(true))
    case MainDrains =>
      if s.queue == [] then s.(main := Joining(false))
      else if s.queue[0].LineMessage? then s.(queue := s.queue[1..], delivered := s.delivered + [s.queue[0].line])
      else s.(queue := s.queue[1..], main := Joining(false))
    case MainJoins => s.(main := Joined(s.main.killed))
  }

  /** `steps` is a schedule that the system can follow from `s`. */
  predicate Schedule(s: State, steps: seq<Step>)
    decreases |steps|
  {
    steps == [] || (Enabled(s, steps[0]) && Schedule(Apply(s, steps[0]), steps[1..]))
  }

  function Execute(s: State, steps: seq<Step>): State
    requires Schedule(s, steps)
    decreases |steps|
  {
    if steps == [] then s else Execute(Apply(s, steps[0]), steps[1..])
  }

  // ----- the invariant -----

  /** The lines before the first read that fails. */
  function Readable(items: seq<Item>): seq<string> {
    if items == [] || items[0].Bad? then [] else [items[0].line] + Readable(items[1..])
  }

  function QueuedLines(queue: seq<Message>): seq<string> {
    if queue == [] then []
    else (if queue[0].LineMessage? then [queue[0].line] else []) + QueuedLines(queue[1..])
  }

  function InHand(r: Reader): seq<string> {
    if r.Sending? && r.m.LineMessage? then [r.m.line] else []
  }

  /** The reader has met the end of the pipe or a read error. */
  predicate ReaderAtEnd(r: Reader) {
    r.Finished? || (r.Sending? && r.m.EofSentinel?)
  }

  predicate OnlyLines(queue: seq<Message>) {
    forall m :: m in queue ==> m.LineMessage?
  }

  /** The sentinel is in the queue, last, from the reader's end until the supervisor takes it. */
  predicate QueueShape(s: State) {
    if s.main.Polling? && s.reader.Finished?
    then s.queue != [] && s.queue[|s.queue| - 1].EofSentinel? && OnlyLines(s.queue[..|s.queue| - 1])
    else OnlyLines(s.queue)
  }

  /** Who waits for whom. */
  predicate Control(s: State) {
    && |s.queue| <= CAPACITY
    && QueueShape(s)
    && (s.main.Draining? ==> s.reader.Finished? && s.queue == [])
    && (s.main.Joining? && !s.main.killed ==> s.reader.Finished? && s.queue == [])
    && (s.main.Joined? ==> s.reader.Finished? && s.queue == [])
    && (s.receiverLive <==> !((s.main.Joining? || s.main.Joined?) && s.main.killed))
    && (!s.receiverLive ==> !s.pipeOpen && s.queue == [])
  }

  /** The lines on their way to the callback, in order. */
  function Upcoming(s: State): seq<string> {
    QueuedLines(s.queue) + (InHand(s.reader) + if ReaderAtEnd(s.reader) then [] else Readable(s.pipe))
  }

  /** No readable line is lost, repeated or overtaken. */
  predicate Data(s: State) {
    if !s.receiverLive then s.delivered <= Readable(s.written)
    else
      && Readable(s.written) == s.delivered + Upcoming(s)
      && if ReaderAtEnd(s.reader) then Bad in s.written || (!s.pipeOpen && s.pipe == [])
         else Bad in s.written <==> Bad in s.pipe
  }

  predicate Inv(s: State) {
    Control(s) && Data(s)
  }

  lemma {:induction false} ReadableConcat(a: seq<Item>, b: seq<Item>)
    ensures Readable(a + b) == if Bad in a then Readable(a) else Readable(a) + Readable(b)
  {
    if a == [] {
      assert a + b == b;
    } else {
      assert (a + b)[0] == a[0] && (a + b)[1..] == a[1..] + b;
      if a[0].Good? {
        ReadableConcat(a[1..], b);
        assert Bad in a <==> Bad in a[1..];
      }
    }
  }

  lemma {:induction false} QueuedLinesPush(queue: seq<Message>, m: Message)
    ensures QueuedLines(queue + [m]) == QueuedLines(queue) + if m.LineMessage? then [m.line] else []
  {
    if queue == [] {
      assert queue + [m] == [m];
    } else {
      assert (queue + [m])[0] == queue[0] && (queue + [m])[1..] == queue[1..] + [m];
      QueuedLinesPush(queue[1..], m);
    }
  }

  lemma ControlKept(s: State, step: Step)
    requires Control(s) && Enabled(s, step)
    ensures Control(Apply(s, step))
  {
    if step.ReaderSends? && s.receiverLive {
      var t := Apply(s, step);
      assert t.queue[..|t.queue| - 1] == s.queue;
    } else if (step.MainReceives? || step.MainDrains?) && s.queue != [] {
      TakeKeepsShape(s, step);
    }
  }

  lemma TakeKeepsShape(s: State, step: Step)
    requires Control(s) && Enabled(s, step) && (step.MainReceives? || step.MainDrains?) && s.queue != []
    ensures QueueShape(Apply(s, step)) && (Apply(s, step).main.Draining? ==> Apply(s, step).queue == [])
    ensures Apply(s, step).main.Draining? ==> s.reader.Finished?
  {
    var t := Apply(s, step);
    assert s.queue[0] in s.queue && forall m :: m in t.queue ==> m in s.queue;
    if s.reader.Finished? && |s.queue| > 1 {
      var lines := s.queue[..|s.queue| - 1];
      assert t.queue[..|t.queue| - 1] == lines[1..] && lines[0] == s.queue[0];
      assert lines[0] in lines && forall m :: m in lines[1..] ==> m in lines;
    }
  }

  lemma Shift<T>(a: seq<T>, b: seq<T>, c: seq<T>, d: seq<T>)
    ensures a + ((b + c) + d) == (a + b) + (c + d)
  {
  }

  lemma Extend<T>(a: seq<T>, b: seq<T>, c: seq<T>, d: seq<T>, e: seq<T>)
    ensures (a + (b + (c + d))) + e == a + (b + (c + (d + e)))
  {
  }

  lemma WriteKeepsData(s: State, item: Item)
    requires Inv(s) && Enabled(s, ChildWrites(item))
    ensures Data(Apply(s, ChildWrites(item)))
  {
    ReadableConcat(s.written, [item]);
    ReadableConcat(s.pipe, [item]);
    if !ReaderAtEnd(s.reader) && Bad !in s.written {
      Extend(s.delivered, QueuedLines(s.queue), InHand(s.reader), Readable(s.pipe), Readable([item]));
    }
  }

  lemma SendKeepsData(s: State)
    requires Inv(s) && Enabled(s, ReaderSends)
    ensures Data(Apply(s, ReaderSends))
  {
    if s.receiverLive {
      QueuedLinesPush(s.queue, s.reader.m);
      var rest := if ReaderAtEnd(s.reader) then [] else Readable(s.pipe);
      assert (QueuedLines(s.queue) + InHand(s.reader)) + rest == QueuedLines(s.queue) + (InHand(s.reader) + rest);
      assert Apply(s, ReaderSends).reader.Finished? <==> ReaderAtEnd(s.reader);
      assert [] + rest == rest;
    }
  }

  lemma ReadKeepsData(s: State)
    requires Inv(s) && Enabled(s, ReaderReads)
    ensures Data(Apply(s, ReaderReads))
  {
    if s.pipe != [] {
      assert s.pipe == [s.pipe[0]] + s.pipe[1..];
      assert [] + Readable(s.pipe) == Readable(s.pipe);
      assert Bad in s.pipe <==> s.pipe[0] == Bad || Bad in s.pipe[1..];
    }
  }

  lemma TakeKeepsData(s: State, step: Step)
    requires Inv(s) && Enabled(s, step) && (step.MainReceives? || step.MainDrains?)
    ensures Data(Apply(s, step))
  {
    if s.queue != [] {
      var rest := InHand(s.reader) + if ReaderAtEnd(s.reader) then [] else Readable(s.pipe);
      var head := if s.queue[0].LineMessage? then [s.queue[0].line] else [];
      assert QueuedLines(s.queue) == head + QueuedLines(s.queue[1..]);
      Shift(s.delivered, head, QueuedLines(s.queue[1..]), rest);
    }
  }

  lemma StepKeepsInv(s: State, step: Step)
    requires Inv(s) && Enabled(s, step)
    ensures Inv(Apply(s, step))
  {
    ControlKept(s, step);
    match step {
      case ChildWrites(item) => WriteKeepsData(s, item);
      case ReaderReads => ReadKeepsData(s);
      case ReaderSends => SendKeepsData(s);
      case MainReceives => TakeKeepsData(s, step);
      case MainDrains => TakeKeepsData(s, step);
      case _ =>
    }
  }

  lemma {:induction false} ReachableInv(s: State, steps: seq<Step>)
    requires Inv(s) && Schedule(s, steps)
    ensures Inv(Execute(s, steps))
    decreases |steps|
  {
    if steps != [] {
      StepKeepsInv(s, steps[0]);
      ReachableInv(Apply(s, steps[0]), steps[1..]);
    }
  }

  // ----- what every schedule keeps -----

  /** Whatever the schedule, the callback has seen an initial stretch of the readable lines, each once. */
  lemma DeliveredInOrder(steps: seq<Step>)
    requires Schedule(INITIAL, steps)
    ensures var s := Execute(INITIAL, steps); s.delivered <= Readable(s.written) && |s.queue| <= 256
  {
    ReachableInv(INITIAL, steps);
  }

  /** After a normal exit the callback has seen every readable line; that is every line iff no read failed. */
  lemma NormalExitDeliversAll(steps: seq<Step>)
    requires Schedule(INITIAL, steps)
    requires var m := Execute(INITIAL, steps).main; (m.Joining? || m.Joined?) && !m.killed
    ensures var s := Execute(INITIAL, steps);
      && s.delivered == Readable(s.written)
      && (|s.delivered| == |s.written| <==> Bad !in s.written)
  {
    ReachableInv(INITIAL, steps);
    ReadableLength(Execute(INITIAL, steps).written);
  }

  lemma {:induction false} ReadableLength(items: seq<Item>)
    ensures |Readable(items)| <= |items|
    ensures |Readable(items)| == |items| <==> Bad !in items
  {
    if items != [] && items[0].Good? {
      ReadableLength(items[1..]);
      assert Bad in items <==> Bad in items[1..];
    }
  }

  /** The loop ends by the sentinel: it never sees the channel disconnected, and nothing is left to drain. */
  lemma NeverDisconnected(steps: seq<Step>)
    requires Schedule(INITIAL, steps)
    ensures !Enabled(Execute(INITIAL, steps), MainDisconnected)
    ensures Execute(INITIAL, steps).main.Draining? ==> Execute(INITIAL, steps).queue == []
  {
    ReachableInv(INITIAL, steps);
  }

  // ----- shutdown -----

  /** How many steps of its own the reader needs once the receiver is gone. */
  function StepsToFinish(r: Reader): nat {
    match r
    case Reading => 2
    case Sending(_) => 1
    case Finished => 0
  }

  function ReaderStep(r: Reader): Step
    requires !r.Finished?
  {
    if r.Reading? then ReaderReads else ReaderSends
  }

  /**
   * Joining never deadlocks: in every reachable state where the supervisor joins, a reader that has not
   * finished can take its next step without any receive, each such step brings it closer to its end,
   * at most two remain, and no other thread can take a step.
   */
  lemma JoinAlwaysReturns(steps: seq<Step>)
    requires Schedule(INITIAL, steps) && Execute(INITIAL, steps).main.Joining?
    ensures var s := Execute(INITIAL, steps);
      && StepsToFinish(s.reader) <= 2
      && (s.reader.Finished? ==> Enabled(s, MainJoins))
      && (!s.reader.Finished? ==>
            && Enabled(s, ReaderStep(s.reader))
            && Apply(s, ReaderStep(s.reader)).main == s.main
            && StepsToFinish(Apply(s, ReaderStep(s.reader)).reader) < StepsToFinish(s.reader)
            && forall step :: Enabled(s, step) ==> step == ReaderStep(s.reader))
  {
    ReachableInv(INITIAL, steps);
  }

  lemma {:induction false} JoinSchedule(s: State) returns (steps: seq<Step>)
    requires Inv(s) && s.main.Joining?
    ensures Schedule(s, steps) && |steps| == StepsToFinish(s.reader) + 1
    ensures forall step :: step in steps ==> step.ReaderReads? || step.ReaderSends? || step.MainJoins?
    ensures Execute(s, steps).main == Joined(s.main.killed)
    decreases StepsToFinish(s.reader)
  {
    if s.reader.Finished? {
      steps := [MainJoins];
      assert steps[1..] == [];
    } else {
      var step := ReaderStep(s.reader);
      StepKeepsInv(s, step);
      var rest := JoinSchedule(Apply(s, step));
      steps := [step] + rest;
      assert steps[1..] == rest;
    }
  }

  /** From every reachable join the supervisor returns by at most two reader steps and the join itself. */
  lemma JoinCompletes(steps: seq<Step>)
    requires Schedule(INITIAL, steps) && Execute(INITIAL, steps).main.Joining?
    ensures var s := Execute(INITIAL, steps);
      exists more: seq<Step> :: Schedule(s, more) && |more| <= 3 && Execute(s, more).main == Joined(s.main.killed)
        && forall step :: step in more ==> step.ReaderReads? || step.ReaderSends? || step.MainJoins?
  {
    ReachableInv(INITIAL, steps);
    var more := JoinSchedule(Execute(INITIAL, steps));
  }

  // ----- progress -----

  /**
   * The reader waits only for a full channel, of 256 messages, and then the supervisor can receive: neither
   * waits for the other.
   */
  lemma ReaderWaitsOnlyWhenFull(steps: seq<Step>)
    requires Schedule(INITIAL, steps)
    requires Execute(INITIAL, steps).reader.Sending? && Execute(INITIAL, steps).receiverLive
    ensures var s := Execute(INITIAL, steps);
      && (Enabled(s, ReaderSends) <==> |s.queue| < 256)
      && (!Enabled(s, ReaderSends) ==> |s.queue| == 256 && Enabled(s, MainReceives))
  {
    ReachableInv(INITIAL, steps);
  }

  /** Steps of the reader and the supervisor that are left when the child writes no more. */
  function StepsLeft(s: State): nat {
    3 * |s.pipe| + |s.queue| + (if s.pipeOpen then 1 else 0)
    + match s.reader
      case Reading => 3
      case Sending(m) => if m.LineMessage? then 5 else 2
      case Finished => 0
  }

  /** The step to take when the supervisor still polls. */
  function NextStep(s: State): Step {
    if s.pipeOpen then ChildExits
    else if s.queue != [] then MainReceives
    else if s.reader.Reading? then ReaderReads
    else ReaderSends
  }

  lemma NextStepGains(s: State)
    requires Inv(s) && s.main.Polling?
    ensures Enabled(s, NextStep(s))
    ensures var t := Apply(s, NextStep(s));
      t.written == s.written && t.receiverLive && (t.main.Polling? || t.main.Draining?)
      && (t.main.Polling? ==> StepsLeft(t) < StepsLeft(s))
  {
  }

  /** The rest of a run in which the child ends and nobody aborts. */
  lemma {:induction false} NormalEnd(s: State) returns (steps: seq<Step>)
    requires Inv(s) && s.receiverLive && !s.main.Joined?
    ensures Schedule(s, steps)
    ensures forall step :: step in steps ==> !step.ChildWrites? && !step.MainAborts?
    ensures Execute(s, steps).main == Joined(false) && Execute(s, steps).written == s.written
    decreases if s.main.Polling? then 2 else if s.main.Draining? then 1 else 0, StepsLeft(s)
  {
    if s.main.Joining? {
      steps := JoinSchedule(s);
      JoinWritesNothing(s, steps);
    } else {
      var step := if s.main.Polling? then NextStep(s) else MainDrains;
      if s.main.Polling? {
        NextStepGains(s);
      }
      StepKeepsInv(s, step);
      var rest := NormalEnd(Apply(s, step));
      steps := [step] + rest;
      assert steps[1..] == rest;
    }
  }

  lemma {:induction false} JoinWritesNothing(s: State, steps: seq<Step>)
    requires Schedule(s, steps)
    requires forall step :: step in steps ==> step.ReaderReads? || step.ReaderSends? || step.MainJoins?
    ensures Execute(s, steps).written == s.written
    decreases |steps|
  {
    if steps != [] {
      assert steps[0] in steps && forall step :: step in steps[1..] ==> step in steps;
      JoinWritesNothing(Apply(s, steps[0]), steps[1..]);
    }
  }

  /**
   * From every reachable state in which the supervisor has not aborted, the run can come to its normal end
   * once the child ends, and by then the callback has seen every readable line.
   */
  lemma NormalEndPossible(steps: seq<Step>)
    requires Schedule(INITIAL, steps)
    requires Execute(INITIAL, steps).receiverLive && !Execute(INITIAL, steps).main.Joined?
    ensures var s := Execute(INITIAL, steps);
      exists more: seq<Step> ::
        && Schedule(s, more) && (forall step :: step in more ==> !step.ChildWrites? && !step.MainAborts?)
        && Execute(s, more).main == Joined(false) && Execute(s, more).delivered == Readable(s.written)
  {
    ReachableInv(INITIAL, steps);
    var s := Execute(INITIAL, steps);
    var more := NormalEnd(s);
    ReachableInv(s, more);
  }

  /** A child that has ended leaves a closed pipe, whose reader comes to its end without waiting for more. */
  lemma EndOfChildIsSeen(s: State)
    requires Enabled(s, ChildExits)
    ensures var t := Apply(s, ChildExits);
      !Enabled(t, ChildExits) && (t.reader.Reading? ==> Enabled(t, ReaderReads))
      && (forall item :: !Enabled(t, ChildWrites(item)))
  {
  }

  // ----- the drain -----

  /** The lines ahead of the sentinel. */
  function Ahead(queue: seq<Message>): seq<string> {
    if queue == [] || queue[0].EofSentinel? then [] else [queue[0].line] + Ahead(queue[1..])
  }

  /** Whatever waited when the supervisor stopped polling, draining would deliver it up to the sentinel. */
  lemma {:induction false} DrainDelivers(s: State) returns (steps: seq<Step>)
    requires s.main.Draining?
    ensures Schedule(s, steps) && forall step :: step in steps ==> step == MainDrains
    ensures Execute(s, steps).main == Joining(false)
    ensures Execute(s, steps).delivered == s.delivered + Ahead(s.queue)
    decreases |s.queue|
  {
    var t := Apply(s, MainDrains);
    if t.main.Draining? {
      var rest := DrainDelivers(t);
      steps := [MainDrains] + rest;
      assert steps[1..] == rest;
      assert s.delivered + Ahead(s.queue) == t.delivered + Ahead(t.queue);
    } else {
      steps := [MainDrains];
      assert steps[1..] == [];
    }
  }
}
