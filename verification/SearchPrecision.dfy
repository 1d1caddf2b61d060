/** When a bisection search is exact, and when it is logarithmic. */
module SearchPrecision {
  import opened Sequences
  import opened Splitting
  import opened GroupRuns
  import opened Bisection
  import opened SearchTheorems
  import Chunking

  // ----- exact culprits -----

  predicate BadAlone(o: Oracle, opts: Options, x: string) {
    Bad(o, opts.groupTimeout, opts.slowThreshold, [x])
  }

  /** How a test that is bad alone has to be reported, read off its behaviour. */
  function Verdict(o: Oracle, opts: Options, x: string): Culprit {
    match o.behave(x)
    case Hangs => Culprit(x, Hung, opts.groupTimeout + o.lag([x], opts.groupTimeout))
    case other =>
      if other.time >= opts.groupTimeout then Culprit(x, Hung, opts.groupTimeout + o.lag([x], opts.groupTimeout))
      else Culprit(x, if other.Fails? then Failed else OverThreshold, other.time)
  }

  /** The ideal report: every test that is bad alone, and no other, in selection order. */
  function Ideal(o: Oracle, opts: Options, names: seq<string>): seq<Culprit> {
    if names == [] then []
    else (if BadAlone(o, opts, names[0]) then [Verdict(o, opts, names[0])] else []) + Ideal(o, opts, names[1..])
  }

  lemma {:induction false} IdealConcat(o: Oracle, opts: Options, a: seq<string>, b: seq<string>)
    ensures Ideal(o, opts, a + b) == Ideal(o, opts, a) + Ideal(o, opts, b)
  {
    if a == [] {
      assert a + b == b;
    } else {
      assert (a + b)[0] == a[0] && (a + b)[1..] == a[1..] + b;
      IdealConcat(o, opts, a[1..], b);
      var head := if BadAlone(o, opts, a[0]) then [Verdict(o, opts, a[0])] else [];
      assert Ideal(o, opts, a + b) == head + (Ideal(o, opts, a[1..]) + Ideal(o, opts, b));
    }
  }

  lemma {:induction false} IdealOfClean(o: Oracle, opts: Options, names: seq<string>)
    requires forall x :: x in names ==> !BadAlone(o, opts, x)
    ensures Ideal(o, opts, names) == []
  {
    if names != [] {
      assert names[0] in names && forall x :: x in names[1..] ==> x in names;
      IdealOfClean(o, opts, names[1..]);
    }
  }

  lemma SoloRun(o: Oracle, opts: Options, x: string, run: GroupRun)
    requires Accepted(opts) && RunOf(o, opts, [x]) == Ok(run) && BadAlone(o, opts, x)
    ensures Blame([x], run, opts.slowThreshold) == [Verdict(o, opts, x)]
  {
    assert Chunking.Chunks([x]) == [[x]] by {
      assert [] + [x] == [x] && [x][1..] == [];
      assert Chunking.Pack([], [x]) == Chunking.Pack([x], []);
    }
    assert [[x]][1..] == [] && [x][1..] == [];
    assert Work(o, [x]) == (match o.behave(x) case Hangs => 0 case other => other.time) + Work(o, [x][1..]);
    assert x in [x];
    assert Wedges(o, [x]) <==> o.behave(x).Hangs?;
    assert AnyFails(o, [x]) <==> o.behave(x).Fails?;
    assert Share(run.elapsed, 1) == run.elapsed;
    assert o.behave(x).Hangs? || Work(o, [x]) >= opts.groupTimeout ==>
      run == GroupRun(opts.groupTimeout + o.lag([x], opts.groupTimeout), true, false);
    assert RunChunks(o, [], opts.groupTimeout, Work(o, [x])) == Ok(GroupRun(Work(o, [x]), false, false));
    assert !o.behave(x).Hangs? && Work(o, [x]) < opts.groupTimeout ==>
      run == GroupRun(o.behave(x).time, false, o.behave(x).Fails?);
    assert OutcomeOf(run, opts.slowThreshold) == Verdict(o, opts, x).classification;
    assert run.elapsed == Verdict(o, opts, x).elapsed;
    assert Blame([x], run, opts.slowThreshold)[0] == Verdict(o, opts, x);
  }

  /** The rounds left suffice to cut every pending group down to single tests. */
  predicate RoundsSuffice(opts: Options, work: seq<Pending>) {
    forall p :: p in work ==> p.depth <= opts.maxRounds && |p.group| <= Pow(opts.splitFactor, opts.maxRounds - p.depth)
  }

  lemma ChildFits(opts: Options, group: seq<string>, e: nat, child: seq<string>)
    requires Accepted(opts) && e > 0 && 2 <= |group| <= Pow(opts.splitFactor, e)
    requires child in Children(opts, group)
    ensures |child| <= Pow(opts.splitFactor, e - 1)
  {
    ChildSize(opts, group, child);
    Power(opts.splitFactor, e);
    CeilDivAtMost(|group|, opts.splitFactor, Pow(opts.splitFactor, e - 1), Pow(opts.splitFactor, e));
  }

  lemma Power(k: nat, e: nat)
    requires e > 0
    ensures Pow(k, e) == Pow(k, e - 1) * k
  {
  }

  lemma RoundsSufficeAfter(opts: Options, work: seq<Pending>, run: GroupRun)
    requires Accepted(opts) && RoundsSuffice(opts, work) && work != [] && work[0].group != []
    ensures RoundsSuffice(opts, After(opts, work, run))
  {
    var p := work[0];
    assert p in work;
    forall q | q in After(opts, work, run)
      ensures q.depth <= opts.maxRounds && |q.group| <= Pow(opts.splitFactor, opts.maxRounds - q.depth)
    {
      if q in Next(opts, p, run) {
        NextMember(opts, p, run, q);
        ChildFits(opts, p.group, opts.maxRounds - p.depth, q.group);
      } else {
        assert q in work[1..] && q in work;
      }
    }
  }

  /** One group run reports exactly the bad tests of its group, or hands the group on. */
  lemma FoundExact(o: Oracle, opts: Options, work: seq<Pending>, run: GroupRun)
    requires Accepted(opts) && opts.minGroupSize == 1 && RoundsSuffice(opts, work)
    requires work != [] && work[0].group != [] && RunOf(o, opts, work[0].group) == Ok(run)
    ensures Found(opts, work[0], run).culprits + Ideal(o, opts, Names(Next(opts, work[0], run)))
      == Ideal(o, opts, work[0].group)
  {
    var Pending(group, depth) := work[0];
    assert work[0] in work;
    NextNames(opts, work[0], run);
    GroupVerdict(o, group, opts.groupTimeout, opts.slowThreshold);
    if !Interesting(run, opts.slowThreshold) {
      GoodHasNoCulprit(o, opts, group);
    } else if Leaf(opts, group, depth) {
      LoneCulprit(o, opts, group, run);
    }
  }

  lemma GoodHasNoCulprit(o: Oracle, opts: Options, group: seq<string>)
    requires Accepted(opts) && !Bad(o, opts.groupTimeout, opts.slowThreshold, group)
    ensures Ideal(o, opts, group) == []
  {
    forall x | x in group
      ensures !BadAlone(o, opts, x)
    {
      if BadAlone(o, opts, x) {
        MemberMakesBad(o, opts, x, group);
      }
    }
    IdealOfClean(o, opts, group);
  }

  lemma LoneCulprit(o: Oracle, opts: Options, group: seq<string>, run: GroupRun)
    requires Accepted(opts) && |group| == 1 && RunOf(o, opts, group) == Ok(run)
    requires Interesting(run, opts.slowThreshold)
    ensures Blame(group, run, opts.slowThreshold) == Ideal(o, opts, group)
  {
    assert group == [group[0]];
    GroupVerdict(o, group, opts.groupTimeout, opts.slowThreshold);
    SoloRun(o, opts, group[0], run);
    assert Ideal(o, opts, group) == [Verdict(o, opts, group[0])] + Ideal(o, opts, group[1..]);
  }

  lemma {:induction false} ExploreExact(o: Oracle, opts: Options, work: seq<Pending>)
    requires Accepted(opts) && opts.minGroupSize == 1 && RoundsSuffice(opts, work)
    requires Explore(o, opts, work).ok
    ensures Explore(o, opts, work).culprits == Ideal(o, opts, Names(work))
    decreases Weight(work), |work|
  {
    if work != [] {
      if work[0].group == [] {
        ExploreExact(o, opts, work[1..]);
        assert Names(work) == Names(work[1..]);
      } else {
        var run := RunOf(o, opts, work[0].group).value;
        Unfold(o, opts, work, run);
        RoundsSufficeAfter(opts, work, run);
        ExploreExact(o, opts, After(opts, work, run));
        FoundExact(o, opts, work, run);
        IdealConcat(o, opts, Names(Next(opts, work[0], run)), Names(work[1..]));
        IdealConcat(o, opts, work[0].group, Names(work[1..]));
        Associate(Found(opts, work[0], run).culprits,
                  Ideal(o, opts, Names(Next(opts, work[0], run))), Ideal(o, opts, Names(work[1..])));
      }
    }
  }

  lemma StartSuffices(opts: Options, selected: seq<string>)
    requires StartsWithin(opts, selected, Pow(opts.splitFactor, opts.maxRounds))
    ensures RoundsSuffice(opts, FirstWork(opts, selected))
  {
    forall p | p in FirstWork(opts, selected)
      ensures p.depth == 0 && |p.group| <= Pow(opts.splitFactor, opts.maxRounds)
    {
      assert p.group in InitialGroups(selected, opts.initialGroupSize, opts.initialGroups);
    }
  }

  /**
   * Exactness: with single-test leaves, and rounds enough to reach them, the culprits are exactly the
   * tests that are bad alone, each once, in order, with the outcome and time of its own run. So the
   * split factor and the initial grouping do not show in them.
   */
  lemma {:induction false} SearchExact(o: Oracle, opts: Options, selected: seq<string>)
    requires Accepted(opts) && opts.minGroupSize == 1
    requires StartsWithin(opts, selected, Pow(opts.splitFactor, opts.maxRounds))
    requires Search(o, opts, selected).ok
    ensures Search(o, opts, selected).culprits == Ideal(o, opts, selected)
  {
    StartSuffices(opts, selected);
    ExploreExact(o, opts, FirstWork(opts, selected));
    FirstWorkNames(opts, selected);
  }

  // ----- logarithmic search -----

  /** `log n` to base `k`, rounded up. */
  function CeilLog(k: nat, n: nat): nat
    requires k >= 2
    decreases n
  {
    if n <= 1 then 0
    else
      CeilDivLeast(n, k, n - 1);
      1 + CeilLog(k, CeilDiv(n, k))
  }

  /** `CeilLog(k, n)` is the least `e` with `n <= k^e`. */
  lemma {:induction false} CeilLogLeast(k: nat, n: nat, e: nat)
    requires k >= 2
    ensures CeilLog(k, n) <= e <==> n <= Pow(k, e)
    decreases e
  {
    PowPositive(k, e);
    if n > 1 && e > 0 {
      CeilDivLeast(n, k, Pow(k, e - 1));
      CeilLogLeast(k, CeilDiv(n, k), e - 1);
    }
  }

  lemma {:induction false} ExploreConcat(o: Oracle, opts: Options, a: seq<Pending>, b: seq<Pending>)
    requires Accepted(opts)
    ensures Explore(o, opts, a + b) == Then(Explore(o, opts, a), Explore(o, opts, b))
    decreases Weight(a), |a|
  {
    if a == [] {
      assert a + b == b;
    } else {
      FirstOfConcat(a, b);
      if a[0].group == [] {
        ExploreConcat(o, opts, a[1..], b);
      } else if RunOf(o, opts, a[0].group).Ok? {
        var run := RunOf(o, opts, a[0].group).value;
        Turn(o, opts, a, run);
        ExploreConcat(o, opts, After(opts, a, run), b);
        TurnBefore(o, opts, a, b, run);
      }
    }
  }

  lemma FirstOfConcat<T>(a: seq<T>, b: seq<T>)
    requires a != []
    ensures a + b != [] && (a + b)[0] == a[0] && (a + b)[1..] == a[1..] + b
  {
  }

  lemma AfterConcat(opts: Options, a: seq<Pending>, b: seq<Pending>, run: GroupRun)
    requires a != []
    ensures (a + b)[0] == a[0] && After(opts, a + b, run) == After(opts, a, run) + b
  {
    Associate(Next(opts, a[0], run), a[1..], b);
    FirstOfConcat(a, b);
  }

  lemma TurnBefore(o: Oracle, opts: Options, a: seq<Pending>, b: seq<Pending>, run: GroupRun)
    requires Accepted(opts) && a != [] && a[0].group != [] && RunOf(o, opts, a[0].group) == Ok(run)
    requires var after := After(opts, a, run);
      Explore(o, opts, after + b) == Then(Explore(o, opts, after), Explore(o, opts, b))
    ensures Explore(o, opts, a + b) == Then(Explore(o, opts, a), Explore(o, opts, b))
  {
    Turn(o, opts, a, run);
    Turn(o, opts, a + b, run);
    AfterConcat(opts, a, b, run);
    ThenAssociative(Found(opts, a[0], run), Explore(o, opts, After(opts, a, run)), Explore(o, opts, b));
  }

  predicate Good(o: Oracle, opts: Options, names: seq<string>) {
    !Bad(o, opts.groupTimeout, opts.slowThreshold, names)
  }

  lemma GoodPart(o: Oracle, opts: Options, a: seq<string>, part: seq<string>, b: seq<string>)
    requires Good(o, opts, a + part + b)
    ensures Good(o, opts, part)
  {
    SubsequenceEmpty(a);
    SubsequenceReflexive(part);
    SubsequenceEmpty(b);
    SubsequenceConcat([], a, part, part);
    SubsequenceConcat([] + part, a + part, [], b);
    assert [] + part + [] == part;
    if !Good(o, opts, part) {
      BadUpwardClosed(o, opts.groupTimeout, opts.slowThreshold, part, a + part + b);
    }
  }

  lemma {:induction false} GoodGroups(
      o: Oracle, opts: Options, a: seq<string>, groups: seq<seq<string>>, b: seq<string>)
    requires Good(o, opts, a + Flatten(groups) + b)
    ensures forall g :: g in groups ==> Good(o, opts, g)
    decreases |groups|
  {
    if groups != [] {
      var rest := Flatten(groups[1..]);
      assert a + Flatten(groups) + b == a + groups[0] + (rest + b);
      assert a + Flatten(groups) + b == (a + groups[0]) + rest + b;
      GoodPart(o, opts, a, groups[0], rest + b);
      GoodGroups(o, opts, a + groups[0], groups[1..], b);
    }
  }

  lemma GoodSurroundings(
      o: Oracle, opts: Options, left: seq<string>, before: seq<string>, after: seq<string>, right: seq<string>)
    requires Good(o, opts, (left + before) + (after + right))
    ensures Good(o, opts, before + after)
    ensures Good(o, opts, [] + left + (before + (after + right)))
    ensures Good(o, opts, (left + before) + after + right + [])
  {
    assert (left + before) + (after + right) == left + (before + after) + right;
    assert (left + before) + (after + right) == [] + left + (before + (after + right));
    assert (left + before) + (after + right) == (left + before) + after + right + [];
    GoodPart(o, opts, left, before + after, right);
  }

  /** A good group costs one run. */
  lemma {:induction false} GoodRuns(o: Oracle, opts: Options, groups: seq<seq<string>>, depth: nat)
    requires Accepted(opts) && forall g :: g in groups ==> Good(o, opts, g)
    ensures |Explore(o, opts, At(groups, depth)).records| <= |groups|
    decreases |groups|
  {
    if groups != [] {
      var work := At(groups, depth);
      assert groups[0] in groups && forall g :: g in groups[1..] ==> g in groups;
      assert work[1..] == At(groups[1..], depth);
      GoodRuns(o, opts, groups[1..], depth);
      if work[0].group != [] && RunOf(o, opts, work[0].group).Ok? {
        var run := RunOf(o, opts, work[0].group).value;
        Unfold(o, opts, work, run);
        assert After(opts, work, run) == work[1..];
      }
    }
  }

  /** The group that holds a given position, and what surrounds the position in and around it. */
  lemma {:induction false} Locate(groups: seq<seq<string>>, a: seq<string>, x: string, b: seq<string>)
    returns (j: nat, before: seq<string>, after: seq<string>)
    requires Flatten(groups) == a + [x] + b
    ensures j < |groups| && groups[j] == before + [x] + after
    ensures a == Flatten(groups[..j]) + before
    ensures b == after + Flatten(groups[j + 1..])
    decreases |groups|
  {
    var first, rest := groups[0], Flatten(groups[1..]);
    if |a| < |first| {
      j, before, after := 0, a, first[|a| + 1..];
      assert first == (a + [x] + b)[..|first|];
      assert b == (a + [x] + b)[|a| + 1..] == (first + rest)[|a| + 1..];
    } else {
      assert rest == (a + [x] + b)[|first|..] == a[|first|..] + [x] + b;
      assert a == first + a[|first|..] by {
        assert first == (a + [x] + b)[..|first|];
      }
      j, before, after := Locate(groups[1..], a[|first|..], x, b);
      assert groups[..j + 1] == [first] + groups[1..][..j];
      assert groups[1..][j + 1..] == groups[j + 2..];
      j := j + 1;
    }
  }

  lemma Halved(k: nat, s: nat)
    requires k >= 2 && s >= 2
    ensures CeilDiv(s, k) < s && CeilLog(k, s) == 1 + CeilLog(k, CeilDiv(s, k))
  {
    CeilDivLeast(s, k, s - 1);
  }

  /** Runs that narrowing one suspect in a group of at most `s` tests can cost below the group's own run. */
  function NarrowingRuns(k: nat, s: nat): nat
    requires k >= 2
    decreases s
  {
    if s <= 1 then 0
    else
      Halved(k, s);
      k + NarrowingRuns(k, CeilDiv(s, k))
  }

  lemma {:induction false} NarrowingIsLogarithmic(k: nat, s: nat)
    requires k >= 2
    ensures NarrowingRuns(k, s) == k * CeilLog(k, s)
    decreases s
  {
    if s > 1 {
      Halved(k, s);
      NarrowingIsLogarithmic(k, CeilDiv(s, k));
      ProductStep(CeilLog(k, s), k);
    }
  }

  /** A worklist in three parts costs what the parts cost. */
  lemma RunsInParts(o: Oracle, opts: Options, groups: seq<seq<string>>, depth: nat, j: nat)
    requires Accepted(opts) && j < |groups|
    ensures |Explore(o, opts, At(groups, depth)).records| <=
      |Explore(o, opts, At(groups[..j], depth)).records|
      + |Explore(o, opts, [Pending(groups[j], depth)]).records|
      + |Explore(o, opts, At(groups[j + 1..], depth)).records|
  {
    var left, suspect, right := At(groups[..j], depth), [Pending(groups[j], depth)], At(groups[j + 1..], depth);
    assert At(groups, depth) == left + (suspect + right);
    ExploreConcat(o, opts, left, suspect + right);
    ExploreConcat(o, opts, suspect, right);
  }

  /** Groups that are good but for one test cost one run each and one subdivision per level for that test. */
  lemma {:induction false} SuspectRuns(
      o: Oracle, opts: Options, groups: seq<seq<string>>, depth: nat, s: nat, a: seq<string>, x: string, b: seq<string>)
    requires Accepted(opts)
    requires Flatten(groups) == a + [x] + b && Good(o, opts, a + b)
    requires forall g :: g in groups ==> |g| <= s
    ensures |Explore(o, opts, At(groups, depth)).records| <= |groups| + NarrowingRuns(opts.splitFactor, s)
    decreases s, 2
  {
    var j, before, after := Locate(groups, a, x, b);
    GoodSurroundings(o, opts, Flatten(groups[..j]), before, after, Flatten(groups[j + 1..]));
    GoodGroups(o, opts, [], groups[..j], before + b);
    GoodGroups(o, opts, a + after, groups[j + 1..], []);
    GoodRuns(o, opts, groups[..j], depth);
    GoodRuns(o, opts, groups[j + 1..], depth);
    assert groups[j] in groups;
    OneSuspectRuns(o, opts, groups[j], depth, s, before, x, after);
    RunsInParts(o, opts, groups, depth, j);
  }

  lemma {:induction false} OneSuspectRuns(
      o: Oracle, opts: Options, group: seq<string>, depth: nat, s: nat,
      before: seq<string>, x: string, after: seq<string>)
    requires Accepted(opts)
    requires group == before + [x] + after && Good(o, opts, before + after)
    requires |group| <= s
    ensures |Explore(o, opts, [Pending(group, depth)]).records| <= 1 + NarrowingRuns(opts.splitFactor, s)
    decreases s, 1
  {
    assert |group| == |before| + 1 + |after|;
    if |group| >= 2 {
      ChildrenRuns(o, opts, group, depth, s, before, x, after);
    }
    OneGroupAtMost(o, opts, Pending(group, depth), NarrowingRuns(opts.splitFactor, s));
  }

  /** One group costs its own run and at most what its children cost. */
  lemma OneGroupAtMost(o: Oracle, opts: Options, p: Pending, below: nat)
    requires Accepted(opts) && p.group != []
    requires |p.group| >= 2 ==> |Explore(o, opts, At(Children(opts, p.group), p.depth + 1)).records| <= below
    ensures |Explore(o, opts, [p]).records| <= 1 + below
  {
    if RunOf(o, opts, p.group).Ok? {
      OneGroupRuns(o, opts, p, RunOf(o, opts, p.group).value);
    }
  }

  lemma {:induction false} ChildrenRuns(
      o: Oracle, opts: Options, group: seq<string>, depth: nat, s: nat,
      before: seq<string>, x: string, after: seq<string>)
    requires Accepted(opts)
    requires group == before + [x] + after && Good(o, opts, before + after)
    requires 2 <= |group| <= s
    ensures |Explore(o, opts, At(Children(opts, group), depth + 1)).records| <= NarrowingRuns(opts.splitFactor, s)
    decreases s, 0
  {
    SmallerChildren(opts, group, s);
    SuspectRuns(o, opts, Children(opts, group), depth + 1, CeilDiv(s, opts.splitFactor), before, x, after);
  }

  lemma OneGroupRuns(o: Oracle, opts: Options, p: Pending, run: GroupRun)
    requires Accepted(opts) && p.group != [] && RunOf(o, opts, p.group) == Ok(run)
    ensures
      || |Explore(o, opts, [p]).records| == 1
      || (|p.group| >= 2 && |Explore(o, opts, [p]).records|
          == 1 + |Explore(o, opts, At(Children(opts, p.group), p.depth + 1)).records|)
  {
    Turn(o, opts, [p], run);
    assert After(opts, [p], run) == Next(opts, p, run);
    if !Interesting(run, opts.slowThreshold) || Leaf(opts, p.group, p.depth) {
      assert |Explore(o, opts, Next(opts, p, run)).records| == 0;
    } else {
      assert Next(opts, p, run) == At(Children(opts, p.group), p.depth + 1);
    }
  }

  lemma SmallerChildren(opts: Options, group: seq<string>, s: nat)
    requires Accepted(opts) && 2 <= |group| <= s
    ensures var c, k := Children(opts, group), opts.splitFactor;
      && Flatten(c) == group
      && (forall g :: g in c ==> |g| <= CeilDiv(s, k))
      && CeilDiv(s, k) < s
      && |c| + NarrowingRuns(k, CeilDiv(s, k)) <= NarrowingRuns(k, s)
  {
    ChildrenCorrect(opts, group, 0);
    Halved(opts.splitFactor, s);
    CeilDivLeast(s, opts.splitFactor, CeilDiv(s, opts.splitFactor));
    CeilDivLeast(|group|, opts.splitFactor, CeilDiv(s, opts.splitFactor));
  }

  /**
   * Logarithmic search: when the selection without one test is good, a search from `m` initial groups of
   * at most `n` tests runs at most `m + k * log n` groups, to base `k` and rounded up.
   */
  lemma LogarithmicSearch(o: Oracle, opts: Options, a: seq<string>, x: string, b: seq<string>, n: nat)
    requires Accepted(opts) && Good(o, opts, a + b) && StartsWithin(opts, a + [x] + b, n)
    ensures var selected, k := a + [x] + b, opts.splitFactor;
      |Search(o, opts, selected).records| <=
        |InitialGroups(selected, opts.initialGroupSize, opts.initialGroups)| + k * CeilLog(k, n)
  {
    var selected := a + [x] + b;
    var groups := InitialGroups(selected, opts.initialGroupSize, opts.initialGroups);
    InitialGroupsCorrect(selected, opts.initialGroupSize, opts.initialGroups);
    SuspectRuns(o, opts, groups, 0, n, a, x, b);
    NarrowingIsLogarithmic(opts.splitFactor, n);
  }
}
