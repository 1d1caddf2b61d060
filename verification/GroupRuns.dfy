/**
 * Running one group of tests (bisect.rs, `run_one`, `run_group`).
 *
 * A launch is an oracle: every test has a fixed behaviour, `--test-threads 1` makes a launch last as
 * long as its tests together, a launch that is killed overshoots its deadline by `lag`, and a launch
 * may be `broken` (the process could not be started, or the call was cancelled).
 */
module GroupRuns {
  import opened Sequences
  import Chunking

  datatype Behaviour = Passes(time: nat) | Fails(time: nat) | Hangs

  datatype Oracle = Oracle(
    behave: string -> Behaviour,
    lag: (seq<string>, nat) -> nat,
    broken: (seq<string>, nat) -> bool)

  datatype GroupRun = GroupRun(elapsed: nat, timedOut: bool, failed: bool)

  datatype LaunchError = LaunchError

  predicate Wedges(o: Oracle, names: seq<string>) {
    exists n :: n in names && o.behave(n).Hangs?
  }

  predicate AnyFails(o: Oracle, names: seq<string>) {
    exists n :: n in names && o.behave(n).Fails?
  }

  /** The time the finite tests among `names` take together. */
  function Work(o: Oracle, names: seq<string>): nat {
    if names == [] then 0
    else (match o.behave(names[0]) case Hangs => 0 case other => other.time) + Work(o, names[1..])
  }

  /** `run_one` with a kill deadline. */
  function Launch(o: Oracle, names: seq<string>, timeout: nat): Result<GroupRun, LaunchError> {
    if o.broken(names, timeout) then Err(LaunchError)
    else if Wedges(o, names) || Work(o, names) >= timeout then
      Ok(GroupRun(timeout + o.lag(names, timeout), true, false))
    else Ok(GroupRun(Work(o, names), false, AnyFails(o, names)))
  }

  /** What is left of a group run when `total` of the group's budget is spent and `chunks` remain. */
  function RunChunks(o: Oracle, chunks: seq<seq<string>>, timeout: nat, total: nat): Result<GroupRun, LaunchError>
    decreases |chunks|
  {
    if chunks == [] then Ok(GroupRun(total, false, false))
    else if timeout <= total then Ok(GroupRun(total, true, false))
    else
      match Launch(o, chunks[0], timeout - total)
      case Err(e) => Err(e)
      case Ok(run) =>
        if run.timedOut || run.failed then Ok(GroupRun(total + run.elapsed, run.timedOut, run.failed))
        else RunChunks(o, chunks[1..], timeout, total + run.elapsed)
  }

  /** `run_group`: one deadline for the whole group, shared by its argv-sized launches. */
  method RunGroup(o: Oracle, names: seq<string>, groupTimeout: nat) returns (r: Result<GroupRun, LaunchError>)
    ensures r == RunChunks(o, Chunking.Chunks(names), groupTimeout, 0)
  {
    var chunks := Chunking.ChunkNames(names);
    r := RunLaunches(o, chunks, groupTimeout);
  }

  /** The loop of `run_group` over the launches. */
  method RunLaunches(o: Oracle, chunks: seq<seq<string>>, groupTimeout: nat) returns (r: Result<GroupRun, LaunchError>)
    ensures r == RunChunks(o, chunks, groupTimeout, 0)
  {
    var total: nat := 0;
    for i := 0 to |chunks|
      invariant RunChunks(o, chunks, groupTimeout, 0) == RunChunks(o, chunks[i..], groupTimeout, total)
    {
      assert chunks[i..][0] == chunks[i] && chunks[i..][1..] == chunks[i + 1..];
      var remaining := if groupTimeout >= total then groupTimeout - total else 0;
      if remaining == 0 {
        return Ok(GroupRun(total, true, false));
      }
      var launched := Launch(o, chunks[i], remaining);
      match launched {
        case Err(e) => return Err(e);
        case Ok(run) =>
          total := total + run.elapsed;
          if run.timedOut || run.failed {
            return Ok(GroupRun(total, run.timedOut, run.failed));
          }
      }
    }
    assert chunks[|chunks|..] == [];
    r := Ok(GroupRun(total, false, false));
  }

  /** The engine's verdict on a finished group run. */
  predicate Slow(run: GroupRun, slowThreshold: Option<nat>) {
    slowThreshold.Some? && !run.timedOut && !run.failed && run.elapsed > slowThreshold.value
  }

  predicate Interesting(run: GroupRun, slowThreshold: Option<nat>) {
    run.timedOut || run.failed || Slow(run, slowThreshold)
  }

  /** The verdict said without launches: a property of the tests in the group alone. */
  predicate Bad(o: Oracle, timeout: nat, slowThreshold: Option<nat>, names: seq<string>) {
    || Wedges(o, names)
    || AnyFails(o, names)
    || Work(o, names) >= timeout
    || (slowThreshold.Some? && Work(o, names) > slowThreshold.value)
  }

  lemma {:induction false} WorkConcat(o: Oracle, a: seq<string>, b: seq<string>)
    ensures Work(o, a + b) == Work(o, a) + Work(o, b)
  {
    if a == [] {
      assert a + b == b;
    } else {
      assert (a + b)[1..] == a[1..] + b;
      WorkConcat(o, a[1..], b);
    }
  }

  lemma FlattenMembers(o: Oracle, chunks: seq<seq<string>>)
    requires chunks != []
    ensures Wedges(o, Flatten(chunks)) <==> Wedges(o, chunks[0]) || Wedges(o, Flatten(chunks[1..]))
    ensures AnyFails(o, Flatten(chunks)) <==> AnyFails(o, chunks[0]) || AnyFails(o, Flatten(chunks[1..]))
    ensures Work(o, Flatten(chunks)) == Work(o, chunks[0]) + Work(o, Flatten(chunks[1..]))
  {
    assert forall n :: n in Flatten(chunks) <==> n in chunks[0] || n in Flatten(chunks[1..]);
    WorkConcat(o, chunks[0], Flatten(chunks[1..]));
  }

  /** However a group is cut into launches, the run answers the same question about its tests. */
  lemma {:induction false} RunChunksVerdict(o: Oracle, chunks: seq<seq<string>>, timeout: nat, total: nat)
    requires chunks != [] || total < timeout
    ensures var r, names := RunChunks(o, chunks, timeout, total), Flatten(chunks);
      r.Ok? ==>
        && !(r.value.timedOut && r.value.failed)
        && (r.value.timedOut || r.value.failed <==>
              Wedges(o, names) || AnyFails(o, names) || total + Work(o, names) >= timeout)
        && (!r.value.timedOut && !r.value.failed ==> r.value.elapsed == total + Work(o, names))
    decreases |chunks|
  {
    if chunks != [] {
      FlattenMembers(o, chunks);
      if timeout > total {
        var first := Launch(o, chunks[0], timeout - total);
        if first.Ok? && !first.value.timedOut && !first.value.failed {
          RunChunksVerdict(o, chunks[1..], timeout, total + first.value.elapsed);
        }
      }
    }
  }

  /** A group run finds its group interesting exactly when the group is bad. */
  lemma GroupVerdict(o: Oracle, names: seq<string>, timeout: nat, slowThreshold: Option<nat>)
    ensures var r := RunChunks(o, Chunking.Chunks(names), timeout, 0);
      r.Ok? ==> (Interesting(r.value, slowThreshold) <==> Bad(o, timeout, slowThreshold, names))
  {
    Chunking.ChunksOptimal(names);
    RunChunksVerdict(o, Chunking.Chunks(names), timeout, 0);
  }

  /** Any cut into launches gives the verdict that a single launch of the whole group gives. */
  lemma ChunkingTransparent(o: Oracle, chunks: seq<seq<string>>, timeout: nat, slowThreshold: Option<nat>)
    requires chunks != []
    ensures var many, one := RunChunks(o, chunks, timeout, 0), RunChunks(o, [Flatten(chunks)], timeout, 0);
      many.Ok? && one.Ok? ==>
        (Interesting(many.value, slowThreshold) <==> Interesting(one.value, slowThreshold))
  {
    FlattenSingleton(Flatten(chunks));
    RunChunksVerdict(o, chunks, timeout, 0);
    RunChunksVerdict(o, [Flatten(chunks)], timeout, 0);
  }

  /** Launches before the one that runs out of time, and whether there is such a launch. */
  function BeforeWedge(o: Oracle, chunks: seq<seq<string>>, timeout: nat, total: nat): seq<string>
    decreases |chunks|
  {
    if chunks == [] || Wedges(o, chunks[0]) || total + Work(o, chunks[0]) >= timeout then []
    else chunks[0] + BeforeWedge(o, chunks[1..], timeout, total + Work(o, chunks[0]))
  }

  /**
   * The label, unlike the verdict, depends on the cut: a cut run says "hung" where a single launch
   * does, except when a failing test was launched before the launch that runs out of time.
   */
  lemma {:induction false} LabelUnderChunking(o: Oracle, chunks: seq<seq<string>>, timeout: nat, total: nat)
    requires total < timeout
    ensures var many, names := RunChunks(o, chunks, timeout, total), Flatten(chunks);
      many.Ok? ==>
        (many.value.timedOut <==>
          && (Wedges(o, names) || total + Work(o, names) >= timeout)
          && !AnyFails(o, BeforeWedge(o, chunks, timeout, total)))
    decreases |chunks|
  {
    if chunks != [] {
      FlattenMembers(o, chunks);
      var now := total + Work(o, chunks[0]);
      if !Wedges(o, chunks[0]) && now < timeout {
        var rest := BeforeWedge(o, chunks[1..], timeout, now);
        assert AnyFails(o, chunks[0] + rest) <==> AnyFails(o, chunks[0]) || AnyFails(o, rest) by {
          assert forall n :: n in chunks[0] + rest <==> n in chunks[0] || n in rest;
        }
        LabelUnderChunking(o, chunks[1..], timeout, now);
      }
    }
  }

  /** Two launches, a failure and then a hang: cut, the group "failed"; in one launch it "hung". */
  lemma LabelDependsOnChunking(a: string, b: string)
    requires a != b
    ensures exists o: Oracle, timeout: nat ::
      RunChunks(o, [[a], [b]], timeout, 0) == Ok(GroupRun(1, false, true)) &&
      RunChunks(o, [[a, b]], timeout, 0) == Ok(GroupRun(10, true, false))
  {
    var o := Oracle(n => if n == a then Fails(1) else Hangs, (_, _) => 0, (_, _) => false);
    assert a in [a] && b in [a, b];
    assert o.behave(a).Fails? && o.behave(b).Hangs?;
    assert Work(o, [a]) == 1 + Work(o, []);
    assert !Wedges(o, [a]) && AnyFails(o, [a]) && Wedges(o, [a, b]);
    assert RunChunks(o, [[a], [b]], 10, 0) == Ok(GroupRun(1, false, true));
    assert RunChunks(o, [[a, b]], 10, 0) == Ok(GroupRun(10, true, false));
  }

  /** Badness is inherited by every larger selection of tests. */
  lemma {:induction false} BadUpwardClosed(
      o: Oracle, timeout: nat, slowThreshold: Option<nat>, part: seq<string>, whole: seq<string>)
    requires Subsequence(part, whole) && Bad(o, timeout, slowThreshold, part)
    ensures Bad(o, timeout, slowThreshold, whole)
  {
    SubsequenceWork(o, part, whole);
  }

  lemma {:induction false} SubsequenceWork(o: Oracle, part: seq<string>, whole: seq<string>)
    requires Subsequence(part, whole)
    ensures Work(o, part) <= Work(o, whole)
    ensures forall n :: n in part ==> n in whole
    decreases |whole|
  {
    if whole != [] {
      if Subsequence(part, whole[1..]) {
        SubsequenceWork(o, part, whole[1..]);
      } else {
        SubsequenceWork(o, part[1..], whole[1..]);
        assert forall n :: n in part ==> n == part[0] || n in part[1..];
      }
    }
  }

  /** A group run outlasts its budget by no more than one launch can overshoot a kill. */
  lemma {:induction false} RunChunksTime(o: Oracle, chunks: seq<seq<string>>, timeout: nat, total: nat, maxLag: nat)
    requires total <= timeout
    requires forall c, t :: o.lag(c, t) <= maxLag
    ensures var r := RunChunks(o, chunks, timeout, total); r.Ok? ==> r.value.elapsed <= timeout + maxLag
    decreases |chunks|
  {
    if chunks != [] && total < timeout {
      var first := Launch(o, chunks[0], timeout - total);
      if first.Ok? && !first.value.timedOut && !first.value.failed {
        RunChunksTime(o, chunks[1..], timeout, total + first.value.elapsed, maxLag);
      }
    }
  }

  // ----- where a run stops, and how long it took -----

  /** The time that the first `k` launches take. */
  function SpentOn(o: Oracle, chunks: seq<seq<string>>, k: nat): nat
    requires k <= |chunks|
  {
    if k == 0 then 0 else Work(o, chunks[0]) + SpentOn(o, chunks[1..], k - 1)
  }

  /** The first `k` launches neither hang nor fail. */
  predicate Uneventful(o: Oracle, chunks: seq<seq<string>>, k: nat)
    requires k <= |chunks|
  {
    forall i :: 0 <= i < k ==> !Wedges(o, chunks[i]) && !AnyFails(o, chunks[i])
  }

  /** Launch `k` is the first with a failing test, and ends in time. */
  predicate FailsAt(o: Oracle, chunks: seq<seq<string>>, timeout: nat, total: nat, k: nat) {
    && k < |chunks| && Uneventful(o, chunks, k) && AnyFails(o, chunks[k]) && !Wedges(o, chunks[k])
    && total + SpentOn(o, chunks, k + 1) < timeout
  }

  /** Launch `k` is the first that hangs or reaches the deadline, and no launch before it failed. */
  predicate KilledAt(o: Oracle, chunks: seq<seq<string>>, timeout: nat, total: nat, k: nat) {
    && k < |chunks| && Uneventful(o, chunks, k) && total + SpentOn(o, chunks, k) < timeout
    && (Wedges(o, chunks[k]) || total + SpentOn(o, chunks, k + 1) >= timeout)
  }

  /**
   * A run that fails took the time of its launches up to the failing one; a run that times out took the
   * whole budget and the overshoot of the kill of the launch that ran out of it.
   */
  lemma {:induction false} RunChunksStops(o: Oracle, chunks: seq<seq<string>>, timeout: nat, total: nat)
    returns (k: nat)
    requires total < timeout && RunChunks(o, chunks, timeout, total).Ok?
    ensures var run := RunChunks(o, chunks, timeout, total).value;
      && (run.failed ==>
            FailsAt(o, chunks, timeout, total, k) && run.elapsed == total + SpentOn(o, chunks, k + 1))
      && (run.timedOut ==>
            KilledAt(o, chunks, timeout, total, k)
            && run.elapsed == timeout + o.lag(chunks[k], timeout - total - SpentOn(o, chunks, k)))
      && (!run.failed && !run.timedOut ==>
            k == |chunks| && Uneventful(o, chunks, k) && run.elapsed == total + SpentOn(o, chunks, k))
    decreases |chunks|
  {
    k := 0;
    if chunks != [] {
      var first := Launch(o, chunks[0], timeout - total);
      assert SpentOn(o, chunks, 1) == Work(o, chunks[0]) + SpentOn(o, chunks[1..], 0);
      if !first.value.timedOut && !first.value.failed {
        var rest := chunks[1..];
        var n := RunChunksStops(o, rest, timeout, total + first.value.elapsed);
        k := n + 1;
        if n <= |rest| && Uneventful(o, rest, n) {
          OneMore(o, chunks, n);
        }
      }
    }
  }

  /** What holds of the launches after the first, told from the first on. */
  lemma OneMore(o: Oracle, chunks: seq<seq<string>>, n: nat)
    requires n < |chunks| && !Wedges(o, chunks[0]) && !AnyFails(o, chunks[0]) && Uneventful(o, chunks[1..], n)
    ensures Uneventful(o, chunks, n + 1)
    ensures SpentOn(o, chunks, n + 1) == Work(o, chunks[0]) + SpentOn(o, chunks[1..], n)
    ensures n + 1 < |chunks| ==>
      && chunks[n + 1] == chunks[1..][n]
      && SpentOn(o, chunks, n + 2) == Work(o, chunks[0]) + SpentOn(o, chunks[1..], n + 1)
  {
    assert forall i :: 0 < i < |chunks| ==> chunks[i] == chunks[1..][i - 1];
  }

  /** Launch `k` cannot be started or is cancelled, and the run gets as far as trying it. */
  predicate BreaksAt(o: Oracle, chunks: seq<seq<string>>, timeout: nat, total: nat, k: nat) {
    && k < |chunks| && Uneventful(o, chunks, k) && total + SpentOn(o, chunks, k) < timeout
    && o.broken(chunks[k], timeout - total - SpentOn(o, chunks, k))
  }

  /** A group run breaks off exactly when it gets to a launch that breaks. */
  lemma {:induction false} RunChunksBreaksIff(o: Oracle, chunks: seq<seq<string>>, timeout: nat, total: nat)
    requires total < timeout
    ensures RunChunks(o, chunks, timeout, total).Err? <==> exists k: nat :: BreaksAt(o, chunks, timeout, total, k)
    decreases |chunks|
  {
    if chunks != [] {
      var first, rest := Launch(o, chunks[0], timeout - total), chunks[1..];
      if first.Err? {
        assert BreaksAt(o, chunks, timeout, total, 0);
      } else if first.value.timedOut || first.value.failed {
        StopsAtFirst(o, chunks, timeout, total);
      } else {
        var now := total + first.value.elapsed;
        RunChunksBreaksIff(o, rest, timeout, now);
        if k: nat :| BreaksAt(o, rest, timeout, now, k) {
          BreaksLater(o, chunks, timeout, total, k);
        }
        if k: nat :| BreaksAt(o, chunks, timeout, total, k) {
          BreaksLater(o, chunks, timeout, total, k - 1);
        }
      }
    }
  }

  lemma StopsAtFirst(o: Oracle, chunks: seq<seq<string>>, timeout: nat, total: nat)
    requires chunks != [] && total < timeout && !o.broken(chunks[0], timeout - total)
    requires Wedges(o, chunks[0]) || AnyFails(o, chunks[0]) || total + Work(o, chunks[0]) >= timeout
    ensures forall k: nat :: !BreaksAt(o, chunks, timeout, total, k)
  {
    forall k: nat
      ensures !BreaksAt(o, chunks, timeout, total, k)
    {
      if 0 < k <= |chunks| {
        assert SpentOn(o, chunks, k) == Work(o, chunks[0]) + SpentOn(o, chunks[1..], k - 1);
      }
    }
  }

  lemma BreaksLater(o: Oracle, chunks: seq<seq<string>>, timeout: nat, total: nat, k: nat)
    requires chunks != [] && !Wedges(o, chunks[0]) && !AnyFails(o, chunks[0])
    ensures BreaksAt(o, chunks[1..], timeout, total + Work(o, chunks[0]), k) <==>
      BreaksAt(o, chunks, timeout, total, k + 1)
  {
    var rest := chunks[1..];
    if k < |rest| {
      assert SpentOn(o, chunks, k + 1) == Work(o, chunks[0]) + SpentOn(o, rest, k);
      assert forall i :: 0 < i < |chunks| ==> chunks[i] == rest[i - 1];
      if Uneventful(o, rest, k) {
        assert Uneventful(o, chunks, k + 1);
      }
      if Uneventful(o, chunks, k + 1) {
        forall i | 0 <= i < k
          ensures !Wedges(o, rest[i]) && !AnyFails(o, rest[i])
        {
          assert rest[i] == chunks[i + 1];
        }
      }
    }
  }

  /** Without any budget left nothing is launched. */
  lemma NoBudgetNoLaunch(o: Oracle, chunks: seq<seq<string>>, timeout: nat, total: nat)
    requires chunks != [] && total >= timeout
    ensures RunChunks(o, chunks, timeout, total) == Ok(GroupRun(total, true, false))
  {
  }
}
