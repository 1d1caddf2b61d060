/** The bisection worklist (bisect.rs, `bisect_binary`). */
module Bisection {
  import opened Sequences
  import opened Splitting
  import opened GroupRuns
  import Chunking

  datatype Options = Options(
    groupTimeout: nat,
    slowThreshold: Option<nat>,
    splitFactor: nat,
    minGroupSize: nat,
    initialGroupSize: Option<nat>,
    initialGroups: Option<nat>,
    maxRounds: nat)

  /** The part that matters of what option parsing lets through. */
  predicate Accepted(opts: Options) {
    opts.groupTimeout > 0 && opts.splitFactor >= 2 && opts.minGroupSize >= 1
  }

  datatype Outcome = Hung | Failed | OverThreshold | Clean

  datatype Record = Record(group: seq<string>, depth: nat, run: GroupRun, outcome: Outcome)

  datatype Culprit = Culprit(test: string, classification: Outcome, elapsed: nat)

  datatype Pending = Pending(group: seq<string>, depth: nat)

  /** Everything an exploration reports; `ok` is false when a launch broke it off. */
  datatype Tally = Tally(records: seq<Record>, culprits: seq<Culprit>, ok: bool)

  function Then(a: Tally, b: Tally): Tally {
    if a.ok then Tally(a.records + b.records, a.culprits + b.culprits, b.ok) else a
  }

  lemma ThenAssociative(a: Tally, b: Tally, c: Tally)
    ensures Then(Then(a, b), c) == Then(a, Then(b, c))
  {
  }

  function OutcomeOf(run: GroupRun, slowThreshold: Option<nat>): Outcome {
    if run.timedOut then Hung
    else if run.failed then Failed
    else if Slow(run, slowThreshold) then OverThreshold
    else Clean
  }

  /** Elapsed time shared out among the tests of a leaf; the count is cast to 32 bits first. */
  function Share(elapsed: nat, count: nat): nat {
    elapsed / Max(count % 0x1_0000_0000, 1)
  }

  function Blame(group: seq<string>, run: GroupRun, slowThreshold: Option<nat>): seq<Culprit> {
    seq(|group|, i requires 0 <= i < |group| =>
      Culprit(group[i], OutcomeOf(run, slowThreshold), Share(run.elapsed, |group|)))
  }

  function At(groups: seq<seq<string>>, depth: nat): seq<Pending> {
    seq(|groups|, i requires 0 <= i < |groups| => Pending(groups[i], depth))
  }

  function Reverse<T>(s: seq<T>): (r: seq<T>)
    ensures |r| == |s|
  {
    if s == [] then [] else Reverse(s[1..]) + [s[0]]
  }

  lemma {:induction false} ReversePush<T>(next: seq<T>, rest: seq<T>)
    ensures Reverse(next + rest) == Reverse(rest) + Reverse(next)
  {
    if next == [] {
      assert next + rest == rest;
    } else {
      assert (next + rest)[1..] == next[1..] + rest;
      ReversePush(next[1..], rest);
    }
  }

  predicate Leaf(opts: Options, group: seq<string>, depth: nat) {
    |group| <= opts.minGroupSize || depth >= opts.maxRounds
  }

  function Children(opts: Options, group: seq<string>): seq<seq<string>> {
    Split(group, Max(Min(opts.splitFactor, |group|), 2))
  }

  function RunOf(o: Oracle, opts: Options, group: seq<string>): Result<GroupRun, LaunchError> {
    RunChunks(o, Chunking.Chunks(group), opts.groupTimeout, 0)
  }

  /** The most group runs a worklist can still cause. */
  function Weight(work: seq<Pending>): nat {
    if work == [] then 0
    else (if work[0].group == [] then 0 else 2 * |work[0].group| - 1) + Weight(work[1..])
  }

  lemma {:induction false} WeightConcat(a: seq<Pending>, b: seq<Pending>)
    ensures Weight(a + b) == Weight(a) + Weight(b)
  {
    if a == [] {
      assert a + b == b;
    } else {
      assert (a + b)[1..] == a[1..] + b;
      WeightConcat(a[1..], b);
    }
  }

  lemma {:induction false} WeightOfGroups(groups: seq<seq<string>>, depth: nat)
    requires forall g :: g in groups ==> g != []
    ensures Weight(At(groups, depth)) == 2 * |Flatten(groups)| - |groups|
  {
    if groups != [] {
      assert groups[0] in groups && forall g :: g in groups[1..] ==> g in groups;
      assert At(groups, depth)[1..] == At(groups[1..], depth);
      WeightOfGroups(groups[1..], depth);
    }
  }

  /** A group of two or more tests is cut into two or more, and at most `splitFactor`, smaller ones. */
  lemma {:induction false} ChildrenCorrect(opts: Options, group: seq<string>, depth: nat)
    requires |group| >= 2 && opts.splitFactor >= 2
    ensures var c := Children(opts, group);
      && Flatten(c) == group
      && 2 <= |c| <= opts.splitFactor && |c| == Min(opts.splitFactor, |group|)
      && (forall g :: g in c ==> 0 < |g| <= CeilDiv(|group|, opts.splitFactor))
      && Weight(At(c, depth)) == 2 * |group| - |c|
  {
    var k := Max(Min(opts.splitFactor, |group|), 2);
    SplitCorrect(group, k);
    WeightOfGroups(Children(opts, group), depth);
    if k < opts.splitFactor {
      CeilDivLeast(|group|, k, 1);
      CeilDivLeast(|group|, opts.splitFactor, 0);
    }
  }

  /** What one finished group run reports. */
  function Found(opts: Options, p: Pending, run: GroupRun): Tally {
    Tally(
      [Record(p.group, p.depth, run, OutcomeOf(run, opts.slowThreshold))],
      if Interesting(run, opts.slowThreshold) && Leaf(opts, p.group, p.depth)
      then Blame(p.group, run, opts.slowThreshold) else [],
      true)
  }

  /** The groups that a finished group run puts before the rest of the worklist. */
  function Next(opts: Options, p: Pending, run: GroupRun): seq<Pending> {
    if Interesting(run, opts.slowThreshold) && !Leaf(opts, p.group, p.depth)
    then At(Children(opts, p.group), p.depth + 1) else []
  }

  lemma NextIsLighter(opts: Options, p: Pending, run: GroupRun, rest: seq<Pending>)
    requires Accepted(opts) && p.group != []
    ensures Weight(Next(opts, p, run) + rest) < Weight([p] + rest) == 2 * |p.group| - 1 + Weight(rest)
  {
    WeightConcat([p], rest);
    WeightConcat(Next(opts, p, run), rest);
    assert [p][1..] == [] && Weight([p]) == 2 * |p.group| - 1 + Weight([p][1..]);
    if |p.group| >= 2 {
      ChildrenCorrect(opts, p.group, p.depth + 1);
    }
  }

  /** What remains to be reported when `work` is the worklist, next group first. */
  function Explore(o: Oracle, opts: Options, work: seq<Pending>): Tally
    requires Accepted(opts)
    decreases Weight(work), |work|
  {
    if work == [] then Tally([], [], true)
    else if work[0].group == [] then Explore(o, opts, work[1..])
    else
      match RunOf(o, opts, work[0].group)
      case Err(_) => Tally([], [], false)
      case Ok(run) =>
        assert work == [work[0]] + work[1..];
        NextIsLighter(opts, work[0], run, work[1..]);
        Then(Found(opts, work[0], run), Explore(o, opts, Next(opts, work[0], run) + work[1..]))
  }

  lemma ExploreStep(o: Oracle, opts: Options, done: Tally, work: seq<Pending>, run: GroupRun)
    requires Accepted(opts) && done.ok && work != [] && work[0].group != []
    requires RunOf(o, opts, work[0].group) == Ok(run)
    ensures var found, next := Found(opts, work[0], run), Next(opts, work[0], run) + work[1..];
      && Then(done, Explore(o, opts, work)) == Then(Then(done, found), Explore(o, opts, next))
      && Weight(next) < Weight(work)
  {
    var found, next := Found(opts, work[0], run), Next(opts, work[0], run) + work[1..];
    ThenAssociative(done, found, Explore(o, opts, next));
    assert work == [work[0]] + work[1..];
    NextIsLighter(opts, work[0], run, work[1..]);
  }

  function FirstWork(opts: Options, selected: seq<string>): seq<Pending> {
    At(InitialGroups(selected, opts.initialGroupSize, opts.initialGroups), 0)
  }

  /** The whole report for one binary. */
  function Search(o: Oracle, opts: Options, selected: seq<string>): Tally
    requires Accepted(opts)
  {
    Explore(o, opts, FirstWork(opts, selected))
  }

  /** The counters and lists that the engine updates across binaries. */
  class Report {
    var groupsRun: nat
    var culprits: seq<Culprit>
    var body: seq<Record>

    constructor ()
      ensures groupsRun == 0 && culprits == [] && body == []
    {
      groupsRun, culprits, body := 0, [], [];
    }

    /** Every test of a leaf becomes a culprit. */
    method BlameAll(group: seq<string>, run: GroupRun, slowThreshold: Option<nat>)
      requires Interesting(run, slowThreshold)
      modifies this`culprits
      ensures culprits == old(culprits) + Blame(group, run, slowThreshold)
    {
      var classification := if run.timedOut then Hung else if run.failed then Failed else OverThreshold;
      var per := Share(run.elapsed, |group|);
      for i := 0 to |group|
        invariant culprits == old(culprits) + Blame(group, run, slowThreshold)[..i]
      {
        var c := Culprit(group[i], classification, per);
        assert c.elapsed == Share(run.elapsed, |group|);
        assert c.classification == OutcomeOf(run, slowThreshold);
        assert c == Blame(group, run, slowThreshold)[i];
        culprits := culprits + [c];
      }
    }

    /** The body of the loop for a group that is not empty: run it, report it, and subdivide it if need be. */
    method VisitGroup(o: Oracle, opts: Options, group: seq<string>, depth: nat)
      returns (r: Result<seq<Pending>, LaunchError>, ghost run: GroupRun)
      requires group != []
      modifies this
      ensures r.Err? ==> RunOf(o, opts, group).Err? && unchanged(this)
      ensures r.Ok? ==>
        var p := Pending(group, depth);
        && RunOf(o, opts, group) == Ok(run)
        && r.value == Next(opts, p, run)
        && groupsRun == old(groupsRun) + 1
        && body == old(body) + Found(opts, p, run).records
        && culprits == old(culprits) + Found(opts, p, run).culprits
    {
      var launched := RunGroup(o, group, opts.groupTimeout);
      if launched.Err? {
        return Err(launched.error), GroupRun(0, false, false);
      }
      var done := launched.value;
      run := done;
      groupsRun := groupsRun + 1;
      var slow := opts.slowThreshold.Some? && !done.timedOut && !done.failed && done.elapsed > opts.slowThreshold.value;
      var interesting := done.timedOut || done.failed || slow;
      var outcome :=
        if done.timedOut then Hung else if done.failed then Failed else if slow then OverThreshold else Clean;
      body := body + [Record(group, depth, done, outcome)];
      if !interesting {
        return Ok([]), done;
      }
      if |group| <= opts.minGroupSize || depth >= opts.maxRounds {
        BlameAll(group, done, opts.slowThreshold);
        return Ok([]), done;
      }
      var k := Max(Min(opts.splitFactor, |group|), 2);
      var subs := SplitInto(group, k);
      r := Ok(At(subs, depth + 1));
    }

    /** `bisect_binary`: a stack popped from its end, so that groups are explored depth first. */
    method BisectBinary(o: Oracle, opts: Options, selected: seq<string>) returns (r: Result<(), LaunchError>)
      requires Accepted(opts)
      modifies this
      ensures var t := Search(o, opts, selected);
        && (r.Ok? <==> t.ok)
        && groupsRun == old(groupsRun) + |t.records|
        && culprits == old(culprits) + t.culprits
        && body == old(body) + t.records
    {
      var initial := InitialGroups(selected, opts.initialGroupSize, opts.initialGroups);
      ghost var work := FirstWork(opts, selected);
      var stack := Reverse(At(initial, 0));
      ghost var done := Tally(body, culprits, true);
      ghost var goal := Then(done, Explore(o, opts, work));
      while stack != []
        invariant stack == Reverse(work)
        invariant done.ok && Then(done, Explore(o, opts, work)) == goal
        invariant body == done.records && culprits == done.culprits
        invariant groupsRun - |body| == old(groupsRun - |body|)
        decreases Weight(work), |work|
      {
        var Pending(group, depth) := stack[|stack| - 1];
        stack := stack[..|stack| - 1];
        if group == [] {
          work := work[1..];
          continue;
        }
        var visited, run := VisitGroup(o, opts, group, depth);
        if visited.Err? {
          assert body == goal.records == old(body) + Search(o, opts, selected).records;
          return Err(visited.error);
        }
        ExploreStep(o, opts, done, work, run);
        ReversePush(visited.value, work[1..]);
        stack := stack + Reverse(visited.value);
        done := Then(done, Found(opts, work[0], run));
        work := visited.value + work[1..];
      }
      assert body == goal.records == old(body) + Search(o, opts, selected).records;
      r := Ok(());
    }
  }
}
