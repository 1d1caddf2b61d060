/** What a bisection search guarantees, for every oracle, every option set and every test list. */
module SearchTheorems {
  import opened Sequences
  import opened Splitting
  import opened GroupRuns
  import opened Bisection
  import Chunking

  function Names(work: seq<Pending>): seq<string> {
    if work == [] then [] else work[0].group + Names(work[1..])
  }

  function Blamed(culprits: seq<Culprit>): seq<string> {
    seq(|culprits|, i requires 0 <= i < |culprits| => culprits[i].test)
  }

  lemma {:induction false} NamesConcat(a: seq<Pending>, b: seq<Pending>)
    ensures Names(a + b) == Names(a) + Names(b)
  {
    if a == [] {
      assert a + b == b;
    } else {
      assert (a + b)[1..] == a[1..] + b;
      NamesConcat(a[1..], b);
    }
  }

  lemma {:induction false} NamesAt(groups: seq<seq<string>>, depth: nat)
    ensures Names(At(groups, depth)) == Flatten(groups)
  {
    if groups != [] {
      assert At(groups, depth)[1..] == At(groups[1..], depth);
      NamesAt(groups[1..], depth);
    }
  }

  function After(opts: Options, work: seq<Pending>, run: GroupRun): seq<Pending>
    requires work != []
  {
    Next(opts, work[0], run) + work[1..]
  }

  /** A visited group hands on either all its names or no group. */
  lemma NextNames(opts: Options, p: Pending, run: GroupRun)
    requires Accepted(opts) && p.group != []
    ensures Next(opts, p, run) == [] <==> !Interesting(run, opts.slowThreshold) || Leaf(opts, p.group, p.depth)
    ensures Names(Next(opts, p, run)) == if Next(opts, p, run) == [] then [] else p.group
  {
    if Interesting(run, opts.slowThreshold) && !Leaf(opts, p.group, p.depth) {
      ChildrenNames(opts, p.group, p.depth + 1);
    }
  }

  lemma ChildrenNames(opts: Options, group: seq<string>, depth: nat)
    requires Accepted(opts) && |group| >= 2
    ensures Names(At(Children(opts, group), depth)) == group
    ensures At(Children(opts, group), depth) != []
  {
    ChildrenCorrect(opts, group, depth);
    NamesAt(Children(opts, group), depth);
  }

  /** One step of an exploration. */
  lemma Turn(o: Oracle, opts: Options, work: seq<Pending>, run: GroupRun)
    requires Accepted(opts) && work != [] && work[0].group != []
    requires RunOf(o, opts, work[0].group) == Ok(run)
    ensures Weight(After(opts, work, run)) < Weight(work)
    ensures Explore(o, opts, work) == Then(Found(opts, work[0], run), Explore(o, opts, After(opts, work, run)))
  {
    assert work == [work[0]] + work[1..];
    NextIsLighter(opts, work[0], run, work[1..]);
  }

  /** The same step with what it does to the pending names and when it is taken. */
  lemma Unfold(o: Oracle, opts: Options, work: seq<Pending>, run: GroupRun)
    requires Accepted(opts) && work != [] && work[0].group != []
    requires RunOf(o, opts, work[0].group) == Ok(run)
    ensures Weight(After(opts, work, run)) < Weight(work)
    ensures Explore(o, opts, work) == Then(Found(opts, work[0], run), Explore(o, opts, After(opts, work, run)))
    ensures Names(After(opts, work, run)) == Names(Next(opts, work[0], run)) + Names(work[1..])
    ensures Names(Next(opts, work[0], run)) == if Next(opts, work[0], run) == [] then [] else work[0].group
    ensures Next(opts, work[0], run) == [] <==>
      !Interesting(run, opts.slowThreshold) || Leaf(opts, work[0].group, work[0].depth)
    ensures Interesting(run, opts.slowThreshold) <==> Bad(o, opts.groupTimeout, opts.slowThreshold, work[0].group)
  {
    Turn(o, opts, work, run);
    NamesConcat(Next(opts, work[0], run), work[1..]);
    NextNames(opts, work[0], run);
    GroupVerdict(o, work[0].group, opts.groupTimeout, opts.slowThreshold);
  }

  lemma BlamedThen(a: Tally, b: Tally)
    requires a.ok
    ensures Blamed(Then(a, b).culprits) == Blamed(a.culprits) + Blamed(b.culprits)
  {
  }

  lemma BlamedBlame(group: seq<string>, run: GroupRun, slowThreshold: Option<nat>)
    ensures Blamed(Blame(group, run, slowThreshold)) == group
  {
  }

  lemma {:induction false} SingletonSubsequence(x: string, names: seq<string>)
    requires x in names
    ensures Subsequence([x], names)
  {
    if names[0] == x {
      SubsequenceEmpty(names[1..]);
      assert [x][1..] == [];
    } else {
      SingletonSubsequence(x, names[1..]);
    }
  }

  lemma MemberMakesBad(o: Oracle, opts: Options, x: string, names: seq<string>)
    requires x in names && Bad(o, opts.groupTimeout, opts.slowThreshold, [x])
    ensures Bad(o, opts.groupTimeout, opts.slowThreshold, names)
  {
    SingletonSubsequence(x, names);
    BadUpwardClosed(o, opts.groupTimeout, opts.slowThreshold, [x], names);
  }

  // ----- completeness -----

  /** One group run blames or hands on every occurrence of a bad test. */
  lemma FoundComplete(o: Oracle, opts: Options, work: seq<Pending>, run: GroupRun, x: string)
    requires Accepted(opts) && work != [] && work[0].group != []
    requires RunOf(o, opts, work[0].group) == Ok(run)
    requires Bad(o, opts.groupTimeout, opts.slowThreshold, [x])
    ensures multiset(Blamed(Found(opts, work[0], run).culprits))[x] + multiset(Names(Next(opts, work[0], run)))[x]
      == multiset(work[0].group)[x]
  {
    Unfold(o, opts, work, run);
    BlamedBlame(work[0].group, run, opts.slowThreshold);
    if !Interesting(run, opts.slowThreshold) && x in work[0].group {
      MemberMakesBad(o, opts, x, work[0].group);
    }
  }

  lemma {:induction false} ExploreComplete(o: Oracle, opts: Options, work: seq<Pending>, x: string)
    requires Accepted(opts) && Explore(o, opts, work).ok
    requires Bad(o, opts.groupTimeout, opts.slowThreshold, [x])
    ensures multiset(Blamed(Explore(o, opts, work).culprits))[x] == multiset(Names(work))[x]
    decreases Weight(work), |work|
  {
    if work != [] {
      if work[0].group == [] {
        ExploreComplete(o, opts, work[1..], x);
        assert Names(work) == Names(work[1..]);
      } else {
        var run := RunOf(o, opts, work[0].group).value;
        var after := After(opts, work, run);
        Unfold(o, opts, work, run);
        ExploreComplete(o, opts, after, x);
        FoundComplete(o, opts, work, run, x);
        BlamedThen(Found(opts, work[0], run), Explore(o, opts, after));
      }
    }
  }

  lemma FirstWorkNames(opts: Options, selected: seq<string>)
    ensures Names(FirstWork(opts, selected)) == selected
  {
    InitialGroupsCorrect(selected, opts.initialGroupSize, opts.initialGroups);
    NamesAt(InitialGroups(selected, opts.initialGroupSize, opts.initialGroups), 0);
  }

  /**
   * Completeness: a test that alone would hang, fail, run into the deadline or exceed the slow
   * threshold is blamed once for every time it was selected.
   */
  lemma {:induction false} Completeness(o: Oracle, opts: Options, selected: seq<string>, x: string)
    requires Accepted(opts) && Search(o, opts, selected).ok
    requires Bad(o, opts.groupTimeout, opts.slowThreshold, [x])
    ensures multiset(Blamed(Search(o, opts, selected).culprits))[x] == multiset(selected)[x]
  {
    ExploreComplete(o, opts, FirstWork(opts, selected), x);
    FirstWorkNames(opts, selected);
  }

  // ----- order -----

  lemma {:induction false} ExploreOrder(o: Oracle, opts: Options, work: seq<Pending>)
    requires Accepted(opts)
    ensures Subsequence(Blamed(Explore(o, opts, work).culprits), Names(work))
    decreases Weight(work), |work|
  {
    if work == [] {
    } else if work[0].group == [] {
      ExploreOrder(o, opts, work[1..]);
      assert Names(work) == Names(work[1..]);
    } else if RunOf(o, opts, work[0].group).Ok? {
      var run := RunOf(o, opts, work[0].group).value;
      var after := After(opts, work, run);
      Unfold(o, opts, work, run);
      ExploreOrder(o, opts, after);
      var found, rest := Found(opts, work[0], run), Explore(o, opts, after);
      BlamedThen(found, rest);
      BlamedBlame(work[0].group, run, opts.slowThreshold);
      if Next(opts, work[0], run) == [] {
        assert After(opts, work, run) == work[1..];
        SubsequenceReflexive(work[0].group);
        SubsequenceEmpty(work[0].group);
        SubsequenceConcat(Blamed(found.culprits), work[0].group, Blamed(rest.culprits), Names(work[1..]));
      } else {
        assert Blamed(found.culprits) + Blamed(rest.culprits) == Blamed(rest.culprits);
      }
    } else {
      SubsequenceEmpty(Names(work));
    }
  }

  /** Culprits are reported in selection order, and no position of the selection twice. */
  lemma CulpritsInOrder(o: Oracle, opts: Options, selected: seq<string>)
    requires Accepted(opts)
    ensures Subsequence(Blamed(Search(o, opts, selected).culprits), selected)
  {
    ExploreOrder(o, opts, FirstWork(opts, selected));
    FirstWorkNames(opts, selected);
  }

  // ----- number of runs -----

  lemma {:induction false} ExploreRuns(o: Oracle, opts: Options, work: seq<Pending>)
    requires Accepted(opts)
    ensures |Explore(o, opts, work).records| <= Weight(work)
    decreases Weight(work), |work|
  {
    if work != [] {
      if work[0].group == [] {
        ExploreRuns(o, opts, work[1..]);
      } else if RunOf(o, opts, work[0].group).Ok? {
        var run := RunOf(o, opts, work[0].group).value;
        Unfold(o, opts, work, run);
        ExploreRuns(o, opts, After(opts, work, run));
      }
    }
  }

  /** Bisecting `n` tests from `m` initial groups runs at most `2n - m` groups, whatever the round cap. */
  lemma RunBound(o: Oracle, opts: Options, selected: seq<string>)
    requires Accepted(opts) && selected != []
    ensures |Search(o, opts, selected).records| <=
      2 * |selected| - |InitialGroups(selected, opts.initialGroupSize, opts.initialGroups)|
  {
    var groups := InitialGroups(selected, opts.initialGroupSize, opts.initialGroups);
    InitialGroupsCorrect(selected, opts.initialGroupSize, opts.initialGroups);
    WeightOfGroups(groups, 0);
    ExploreRuns(o, opts, FirstWork(opts, selected));
  }

  // ----- what each record says -----

  function Pow(k: nat, e: nat): nat {
    if e == 0 then 1 else k * Pow(k, e - 1)
  }

  lemma {:induction false} PowPositive(k: nat, e: nat)
    requires k > 0
    ensures Pow(k, e) > 0
  {
    if e > 0 {
      PowPositive(k, e - 1);
    }
  }

  /** How large a group `depth` subdivisions below a group of `n` tests can be. */
  function SizeCap(opts: Options, n: nat, depth: nat): nat
    requires Accepted(opts)
  {
    PowPositive(opts.splitFactor, depth);
    CeilDiv(n, Pow(opts.splitFactor, depth))
  }

  lemma Regroup(m: nat, k: nat, p: nat, q: nat)
    requires q == k * p
    ensures m * q == (m * k) * p
  {
  }

  /** Rounding up twice is rounding up once. */
  lemma CeilDivTwice(n: nat, p: nat, k: nat, q: nat, size: nat)
    requires p > 0 && k > 0 && q > 0 && q == k * p
    requires size <= CeilDiv(n, p)
    ensures CeilDiv(size, k) <= CeilDiv(n, q)
  {
    var m := CeilDiv(n, q);
    var mq, mk := m * q, m * k;
    Regroup(m, k, p, q);
    CeilDivAtMost(n, q, m, mq);
    CeilDivAtMost(n, p, mk, mq);
    CeilDivAtMost(size, k, m, mk);
  }

  lemma SizeCapStep(opts: Options, n: nat, depth: nat, size: nat)
    requires Accepted(opts) && size <= SizeCap(opts, n, depth)
    ensures CeilDiv(size, opts.splitFactor) <= SizeCap(opts, n, depth + 1)
  {
    var k := opts.splitFactor;
    PowPositive(k, depth);
    PowPositive(k, depth + 1);
    CeilDivTwice(n, Pow(k, depth), k, Pow(k, depth + 1), size);
  }

  lemma SizeCapRoot(opts: Options, n: nat, size: nat)
    requires Accepted(opts) && size <= n
    ensures size <= SizeCap(opts, n, 0)
  {
    CeilDivLeast(n, 1, SizeCap(opts, n, 0));
  }

  /** A record tells the truth about a group that was run, no larger than its depth allows. */
  predicate Faithful(o: Oracle, opts: Options, n: nat, r: Record)
    requires Accepted(opts)
  {
    && RunOf(o, opts, r.group) == Ok(r.run)
    && r.outcome == OutcomeOf(r.run, opts.slowThreshold)
    && (r.outcome != Clean <==> Bad(o, opts.groupTimeout, opts.slowThreshold, r.group))
    && r.depth <= opts.maxRounds
    && 0 < |r.group| <= SizeCap(opts, n, r.depth)
  }

  predicate Reachable(opts: Options, n: nat, work: seq<Pending>)
    requires Accepted(opts)
  {
    forall p :: p in work ==> p.depth <= opts.maxRounds && |p.group| <= SizeCap(opts, n, p.depth)
  }

  lemma ReachableAfter(o: Oracle, opts: Options, n: nat, work: seq<Pending>, run: GroupRun)
    requires Accepted(opts) && Reachable(opts, n, work) && work != [] && work[0].group != []
    ensures Reachable(opts, n, After(opts, work, run))
  {
    var p := work[0];
    assert p in work;
    forall q | q in After(opts, work, run)
      ensures q.depth <= opts.maxRounds && |q.group| <= SizeCap(opts, n, q.depth)
    {
      if q in Next(opts, p, run) {
        ChildReachable(opts, n, p, run, q);
      } else {
        assert q in work[1..] && q in work;
      }
    }
  }

  lemma ChildReachable(opts: Options, n: nat, p: Pending, run: GroupRun, q: Pending)
    requires Accepted(opts) && p.group != [] && q in Next(opts, p, run)
    requires p.depth <= opts.maxRounds && |p.group| <= SizeCap(opts, n, p.depth)
    ensures q.depth <= opts.maxRounds && |q.group| <= SizeCap(opts, n, q.depth)
  {
    NextMember(opts, p, run, q);
    ChildSize(opts, p.group, q.group);
    SizeCapStep(opts, n, p.depth, |p.group|);
  }

  lemma ChildSize(opts: Options, group: seq<string>, child: seq<string>)
    requires Accepted(opts) && |group| >= 2 && child in Children(opts, group)
    ensures |child| <= CeilDiv(|group|, opts.splitFactor)
  {
    ChildrenCorrect(opts, group, 0);
  }

  lemma NextMember(opts: Options, p: Pending, run: GroupRun, q: Pending)
    requires q in Next(opts, p, run)
    ensures q.depth == p.depth + 1 && q.group in Children(opts, p.group) && !Leaf(opts, p.group, p.depth)
  {
  }

  lemma {:induction false} ExploreFaithful(o: Oracle, opts: Options, n: nat, work: seq<Pending>)
    requires Accepted(opts) && Reachable(opts, n, work)
    ensures forall r :: r in Explore(o, opts, work).records ==> Faithful(o, opts, n, r)
    decreases Weight(work), |work|
  {
    if work != [] {
      if work[0].group == [] {
        ExploreFaithful(o, opts, n, work[1..]);
      } else if RunOf(o, opts, work[0].group).Ok? {
        var run := RunOf(o, opts, work[0].group).value;
        Unfold(o, opts, work, run);
        ReachableAfter(o, opts, n, work, run);
        ExploreFaithful(o, opts, n, After(opts, work, run));
        assert work[0] in work;
      }
    }
  }

  /** No initial group has more than `n` tests. */
  predicate StartsWithin(opts: Options, selected: seq<string>, n: nat) {
    forall g :: g in InitialGroups(selected, opts.initialGroupSize, opts.initialGroups) ==> |g| <= n
  }

  lemma StartsWithinSelection(opts: Options, selected: seq<string>)
    ensures StartsWithin(opts, selected, |selected|)
  {
    var groups := InitialGroups(selected, opts.initialGroupSize, opts.initialGroups);
    InitialGroupsCorrect(selected, opts.initialGroupSize, opts.initialGroups);
    forall g | g in groups
      ensures |g| <= |selected|
    {
      MemberNoLonger(groups, g);
    }
  }

  lemma FirstWorkReachable(opts: Options, selected: seq<string>, n: nat)
    requires Accepted(opts) && StartsWithin(opts, selected, n)
    ensures Reachable(opts, n, FirstWork(opts, selected))
  {
    forall p | p in FirstWork(opts, selected)
      ensures p.depth == 0 && |p.group| <= SizeCap(opts, n, 0)
    {
      assert p.group in InitialGroups(selected, opts.initialGroupSize, opts.initialGroups);
      SizeCapRoot(opts, n, |p.group|);
    }
  }

  /**
   * Every record of a search is faithful; with initial groups of at most `n` tests, no group at depth `d`
   * exceeds `n / k^d` rounded up.
   */
  lemma RecordsFaithful(o: Oracle, opts: Options, selected: seq<string>, n: nat)
    requires Accepted(opts) && StartsWithin(opts, selected, n)
    ensures forall r :: r in Search(o, opts, selected).records ==> Faithful(o, opts, n, r)
  {
    FirstWorkReachable(opts, selected, n);
    ExploreFaithful(o, opts, n, FirstWork(opts, selected));
  }

  /** Group `r` was run because group `parent` was run one level up, was bad and could be divided. */
  predicate Divides(opts: Options, parent: Record, r: Record) {
    && r.depth == parent.depth + 1 && r.group in Children(opts, parent.group)
    && parent.outcome != Clean && |parent.group| > opts.minGroupSize && parent.depth < opts.maxRounds
  }

  ghost predicate HasOrigin(opts: Options, work: seq<Pending>, records: seq<Record>, r: Record) {
    Pending(r.group, r.depth) in work || exists parent :: parent in records && Divides(opts, parent, r)
  }

  lemma {:induction false} ExploreOrigin(o: Oracle, opts: Options, work: seq<Pending>)
    requires Accepted(opts)
    ensures forall r :: r in Explore(o, opts, work).records ==> HasOrigin(opts, work, Explore(o, opts, work).records, r)
    decreases Weight(work), |work|
  {
    if work != [] {
      if work[0].group == [] {
        ExploreOrigin(o, opts, work[1..]);
      } else if RunOf(o, opts, work[0].group).Ok? {
        var run := RunOf(o, opts, work[0].group).value;
        var after := After(opts, work, run);
        Turn(o, opts, work, run);
        ExploreOrigin(o, opts, after);
        var first := Found(opts, work[0], run).records[0];
        var rest, all := Explore(o, opts, after).records, Explore(o, opts, work).records;
        assert all == [first] + rest && Pending(first.group, first.depth) == work[0];
        forall r | r in rest
          ensures HasOrigin(opts, work, all, r)
        {
          if Pending(r.group, r.depth) in after {
            if Pending(r.group, r.depth) !in work {
              NextMember(opts, work[0], run, Pending(r.group, r.depth));
              assert first in all && Divides(opts, first, r);
            }
          } else {
            var parent :| parent in rest && Divides(opts, parent, r);
            assert parent in all;
          }
        }
      }
    }
  }

  /** A group is run only if it is an initial group or a part of a bad group that could be divided. */
  lemma EveryRunHasOrigin(o: Oracle, opts: Options, selected: seq<string>)
    requires Accepted(opts)
    ensures forall r :: r in Search(o, opts, selected).records ==>
      HasOrigin(opts, FirstWork(opts, selected), Search(o, opts, selected).records, r)
  {
    ExploreOrigin(o, opts, FirstWork(opts, selected));
  }

  // ----- each group within its own initial group -----

  /** `part` is a contiguous stretch of `whole`. */
  ghost predicate Stretch(part: seq<string>, whole: seq<string>) {
    exists i, j :: 0 <= i <= j <= |whole| && whole[i..j] == part
  }

  lemma StretchOfStretch(a: seq<string>, b: seq<string>, c: seq<string>)
    requires Stretch(a, b) && Stretch(b, c)
    ensures Stretch(a, c)
  {
    var i, j :| 0 <= i <= j <= |b| && b[i..j] == a;
    var k, l :| 0 <= k <= l <= |c| && c[k..l] == b;
    SliceOfSlice(c, k, l, i, j);
    assert c[k + i..k + j] == a;
  }

  lemma SliceOfSlice<T>(s: seq<T>, k: nat, l: nat, i: nat, j: nat)
    requires k <= l <= |s| && i <= j <= l - k
    ensures s[k..l][i..j] == s[k + i..k + j]
  {
    forall m | 0 <= m < j - i
      ensures s[k..l][i..j][m] == s[k + i..k + j][m]
    {
      assert s[k..l][i..j][m] == s[k..l][i + m];
    }
  }

  lemma {:induction false} MemberIsStretch(groups: seq<seq<string>>, g: seq<string>)
    requires g in groups
    ensures Stretch(g, Flatten(groups))
  {
    var whole, n := Flatten(groups), |groups[0]|;
    if g == groups[0] {
      assert whole[0..n] == g;
    } else {
      MemberIsStretch(groups[1..], g);
      assert whole[n..|whole|] == Flatten(groups[1..]);
      StretchOfStretch(g, Flatten(groups[1..]), whole);
    }
  }

  /** A group run `depth` levels below `root`: a stretch of it, and no larger than that many divisions leave. */
  ghost predicate Below(opts: Options, root: seq<string>, group: seq<string>, depth: nat)
    requires Accepted(opts)
  {
    Stretch(group, root) && |group| <= SizeCap(opts, |root|, depth)
  }

  lemma BelowChild(opts: Options, root: seq<string>, child: seq<string>, group: seq<string>, depth: nat)
    requires Accepted(opts) && |root| >= 2 && child in Children(opts, root) && Below(opts, child, group, depth)
    ensures Below(opts, root, group, depth + 1)
  {
    var k := opts.splitFactor;
    ChildrenCorrect(opts, root, 0);
    MemberIsStretch(Children(opts, root), child);
    StretchOfStretch(group, child, root);
    PowPositive(k, depth);
    PowPositive(k, depth + 1);
    CeilDivTwice(|root|, k, Pow(k, depth), Pow(k, depth + 1), |child|);
  }

  ghost predicate StemsFrom(opts: Options, p: Pending, r: Record)
    requires Accepted(opts)
  {
    p.depth <= r.depth && Below(opts, p.group, r.group, r.depth - p.depth)
  }

  ghost predicate Stems(opts: Options, work: seq<Pending>, r: Record)
    requires Accepted(opts)
  {
    exists p :: p in work && StemsFrom(opts, p, r)
  }

  lemma StemsFromItself(opts: Options, work: seq<Pending>, r: Record)
    requires Accepted(opts) && Pending(r.group, r.depth) in work
    ensures Stems(opts, work, r)
  {
    assert r.group[0..|r.group|] == r.group;
    SizeCapRoot(opts, |r.group|, |r.group|);
    assert StemsFrom(opts, Pending(r.group, r.depth), r);
  }

  lemma BelowNext(opts: Options, p: Pending, run: GroupRun, q: Pending, r: Record)
    requires Accepted(opts) && p.group != [] && q in Next(opts, p, run)
    requires StemsFrom(opts, q, r)
    ensures StemsFrom(opts, p, r)
  {
    NextMember(opts, p, run, q);
    BelowChild(opts, p.group, q.group, r.group, r.depth - q.depth);
  }

  lemma StemsEarlier(opts: Options, work: seq<Pending>, run: GroupRun, r: Record)
    requires Accepted(opts) && work != [] && work[0].group != [] && Stems(opts, After(opts, work, run), r)
    ensures Stems(opts, work, r)
  {
    var q :| q in After(opts, work, run) && StemsFrom(opts, q, r);
    AfterMember(opts, work, run, q);
    if q !in work {
      BelowNext(opts, work[0], run, q, r);
      assert work[0] in work;
    }
  }

  lemma AfterMember(opts: Options, work: seq<Pending>, run: GroupRun, q: Pending)
    requires work != [] && q in After(opts, work, run)
    ensures q in Next(opts, work[0], run) || q in work
  {
    assert q in Next(opts, work[0], run) || q in work[1..];
  }

  lemma {:induction false} ExploreStems(o: Oracle, opts: Options, work: seq<Pending>)
    requires Accepted(opts)
    ensures forall r :: r in Explore(o, opts, work).records ==> Stems(opts, work, r)
    decreases Weight(work), |work|
  {
    if work != [] {
      if work[0].group == [] {
        ExploreStems(o, opts, work[1..]);
      } else if RunOf(o, opts, work[0].group).Ok? {
        var run := RunOf(o, opts, work[0].group).value;
        var after := After(opts, work, run);
        Turn(o, opts, work, run);
        ExploreStems(o, opts, after);
        forall r | r in Explore(o, opts, work).records
          ensures Stems(opts, work, r)
        {
          if r in Explore(o, opts, after).records {
            StemsEarlier(opts, work, run, r);
          } else {
            StemsFromItself(opts, work, r);
          }
        }
      }
    }
  }

  /** A group within one of the initial groups, at its depth. */
  ghost predicate WithinInitial(opts: Options, selected: seq<string>, r: Record)
    requires Accepted(opts)
  {
    exists g :: g in InitialGroups(selected, opts.initialGroupSize, opts.initialGroups)
      && Below(opts, g, r.group, r.depth)
  }

  /**
   * Every group that is run at depth `d` is a contiguous stretch of one initial group, of at most the size
   * of that very group divided by `k^d`, rounded up.
   */
  lemma RecordsStem(o: Oracle, opts: Options, selected: seq<string>)
    requires Accepted(opts)
    ensures forall r :: r in Search(o, opts, selected).records ==> WithinInitial(opts, selected, r)
  {
    var work := FirstWork(opts, selected);
    ExploreStems(o, opts, work);
    forall r | r in Search(o, opts, selected).records
      ensures WithinInitial(opts, selected, r)
    {
      var p :| p in work && StemsFrom(opts, p, r);
      assert p.depth == 0 && p.group in InitialGroups(selected, opts.initialGroupSize, opts.initialGroups);
    }
  }

  function TotalTime(records: seq<Record>): nat {
    if records == [] then 0 else records[0].run.elapsed + TotalTime(records[1..])
  }

  lemma ProductStep(a: nat, each: nat)
    requires a > 0
    ensures a * each == each + (a - 1) * each
  {
  }

  lemma {:induction false} TotalTimeBound(records: seq<Record>, each: nat)
    requires forall r :: r in records ==> r.run.elapsed <= each
    ensures TotalTime(records) <= |records| * each
  {
    if records != [] {
      assert records[0] in records && forall r :: r in records[1..] ==> r in records;
      TotalTimeBound(records[1..], each);
      ProductStep(|records|, each);
    }
  }

  lemma ProductMonotone(a: nat, b: nat, each: nat)
    requires a <= b
    ensures a * each <= b * each
  {
  }

  lemma EachRunShort(o: Oracle, opts: Options, selected: seq<string>, maxLag: nat)
    requires Accepted(opts) && forall c, t :: o.lag(c, t) <= maxLag
    ensures forall r :: r in Search(o, opts, selected).records ==> r.run.elapsed <= opts.groupTimeout + maxLag
  {
    StartsWithinSelection(opts, selected);
    RecordsFaithful(o, opts, selected, |selected|);
    forall r | r in Search(o, opts, selected).records
      ensures r.run.elapsed <= opts.groupTimeout + maxLag
    {
      assert Faithful(o, opts, |selected|, r);
      RunChunksTime(o, Chunking.Chunks(r.group), opts.groupTimeout, 0, maxLag);
    }
  }

  /** When a kill overshoots by at most `maxLag`, the time a search spends running tests is bounded. */
  lemma TimeBound(o: Oracle, opts: Options, selected: seq<string>, maxLag: nat)
    requires Accepted(opts) && selected != []
    requires forall c, t :: o.lag(c, t) <= maxLag
    ensures var m := |InitialGroups(selected, opts.initialGroupSize, opts.initialGroups)|;
      TotalTime(Search(o, opts, selected).records) <= (2 * |selected| - m) * (opts.groupTimeout + maxLag)
  {
    var records := Search(o, opts, selected).records;
    var bound := 2 * |selected| - |InitialGroups(selected, opts.initialGroupSize, opts.initialGroups)|;
    EachRunShort(o, opts, selected, maxLag);
    TotalTimeBound(records, opts.groupTimeout + maxLag);
    RunBound(o, opts, selected);
    ProductMonotone(|records|, bound, opts.groupTimeout + maxLag);
  }

  /** The leaf a culprit came from: run, bad, labelled alike, and too small or too deep to divide. */
  predicate Explains(opts: Options, r: Record, c: Culprit) {
    && c.test in r.group
    && r.outcome != Clean
    && c.classification == r.outcome
    && c.elapsed == Share(r.run.elapsed, |r.group|)
    && Leaf(opts, r.group, r.depth)
  }

  lemma {:induction false} ExploreExplained(o: Oracle, opts: Options, work: seq<Pending>)
    requires Accepted(opts)
    ensures forall c :: c in Explore(o, opts, work).culprits ==>
      exists r :: r in Explore(o, opts, work).records && Explains(opts, r, c)
    decreases Weight(work), |work|
  {
    if work != [] {
      if work[0].group == [] {
        ExploreExplained(o, opts, work[1..]);
      } else if RunOf(o, opts, work[0].group).Ok? {
        var run := RunOf(o, opts, work[0].group).value;
        var after := After(opts, work, run);
        Unfold(o, opts, work, run);
        ExploreExplained(o, opts, after);
        var found, rest, all := Found(opts, work[0], run), Explore(o, opts, after), Explore(o, opts, work);
        forall c | c in all.culprits
          ensures exists r :: r in all.records && Explains(opts, r, c)
        {
          if c in rest.culprits {
            var r :| r in rest.records && Explains(opts, r, c);
            assert r in all.records;
          } else {
            assert found.records[0] in all.records && Explains(opts, found.records[0], c);
          }
        }
      }
    }
  }

  lemma LeafSize(o: Oracle, opts: Options, n: nat, r: Record)
    requires Accepted(opts) && Faithful(o, opts, n, r) && Leaf(opts, r.group, r.depth)
    ensures |r.group| <= Max(opts.minGroupSize, SizeCap(opts, n, opts.maxRounds))
  {
  }

  /** Some recorded leaf, of no more than `cap` tests, explains the culprit. */
  ghost predicate HasLeaf(opts: Options, records: seq<Record>, c: Culprit, cap: nat) {
    exists r :: r in records && Explains(opts, r, c) && |r.group| <= cap
  }

  /**
   * Soundness: every culprit is a member of a leaf that was run and found bad, and a leaf is no larger
   * than the minimum group size or what the round cap leaves.
   */
  lemma CulpritsExplained(o: Oracle, opts: Options, selected: seq<string>, n: nat)
    requires Accepted(opts) && StartsWithin(opts, selected, n)
    ensures forall c :: c in Search(o, opts, selected).culprits ==>
      HasLeaf(opts, Search(o, opts, selected).records, c, Max(opts.minGroupSize, SizeCap(opts, n, opts.maxRounds)))
  {
    ExploreExplained(o, opts, FirstWork(opts, selected));
    RecordsFaithful(o, opts, selected, n);
    var records := Search(o, opts, selected).records;
    var cap := Max(opts.minGroupSize, SizeCap(opts, n, opts.maxRounds));
    forall c | c in Search(o, opts, selected).culprits
      ensures HasLeaf(opts, records, c, cap)
    {
      var r :| r in records && Explains(opts, r, c);
      LeafSize(o, opts, n, r);
    }
  }

  // ----- which bad groups are blamed, and which are divided -----

  /** What a record contributes to the culprits: all its tests, if it is bad and may not be divided. */
  function LeafCulprits(o: Oracle, opts: Options, r: Record): seq<Culprit> {
    if Bad(o, opts.groupTimeout, opts.slowThreshold, r.group)
      && (|r.group| <= opts.minGroupSize || r.depth >= opts.maxRounds)
    then
      var outcome := if r.run.timedOut then Hung else if r.run.failed then Failed else OverThreshold;
      seq(|r.group|, i requires 0 <= i < |r.group| => Culprit(r.group[i], outcome, Share(r.run.elapsed, |r.group|)))
    else []
  }

  function CulpritsOf(o: Oracle, opts: Options, records: seq<Record>): seq<Culprit> {
    if records == [] then [] else LeafCulprits(o, opts, records[0]) + CulpritsOf(o, opts, records[1..])
  }

  lemma {:induction false} ExploreCulprits(o: Oracle, opts: Options, work: seq<Pending>)
    requires Accepted(opts)
    ensures Explore(o, opts, work).culprits == CulpritsOf(o, opts, Explore(o, opts, work).records)
    decreases Weight(work), |work|
  {
    if work != [] {
      if work[0].group == [] {
        ExploreCulprits(o, opts, work[1..]);
      } else if RunOf(o, opts, work[0].group).Ok? {
        var run := RunOf(o, opts, work[0].group).value;
        Unfold(o, opts, work, run);
        ExploreCulprits(o, opts, After(opts, work, run));
        FoundCulprits(o, opts, work[0], run);
        var found, rest := Found(opts, work[0], run), Explore(o, opts, After(opts, work, run));
        assert (found.records + rest.records)[1..] == rest.records;
      }
    }
  }

  lemma FoundCulprits(o: Oracle, opts: Options, p: Pending, run: GroupRun)
    requires Interesting(run, opts.slowThreshold) <==> Bad(o, opts.groupTimeout, opts.slowThreshold, p.group)
    ensures |Found(opts, p, run).records| == 1
    ensures Found(opts, p, run).culprits == LeafCulprits(o, opts, Found(opts, p, run).records[0])
  {
  }

  /**
   * The culprits are, record by record and test by test, the tests of the bad groups that have at most the
   * minimum size or were reached in the last round, each with the label of its group's run.
   */
  lemma CulpritsAre(o: Oracle, opts: Options, selected: seq<string>)
    requires Accepted(opts)
    ensures Search(o, opts, selected).culprits == CulpritsOf(o, opts, Search(o, opts, selected).records)
  {
    ExploreCulprits(o, opts, FirstWork(opts, selected));
  }

  lemma {:induction false} LeafCulpritsIn(o: Oracle, opts: Options, records: seq<Record>, r: Record)
    requires r in records
    ensures forall c :: c in LeafCulprits(o, opts, r) ==> c in CulpritsOf(o, opts, records)
  {
    if r != records[0] {
      LeafCulpritsIn(o, opts, records[1..], r);
    }
  }

  /** The tests of a bad group that may not be divided are all blamed under the label of the group. */
  lemma SmallGroupsBlamed(o: Oracle, opts: Options, selected: seq<string>, r: Record, x: string)
    requires Accepted(opts) && r in Search(o, opts, selected).records && x in r.group
    requires Bad(o, opts.groupTimeout, opts.slowThreshold, r.group)
    requires |r.group| <= opts.minGroupSize || r.depth >= opts.maxRounds
    ensures exists c :: c in Search(o, opts, selected).culprits && c.test == x && c.classification == r.outcome
  {
    CulpritsAre(o, opts, selected);
    LeafCulpritsIn(o, opts, Search(o, opts, selected).records, r);
    StartsWithinSelection(opts, selected);
    RecordsFaithful(o, opts, selected, |selected|);
    assert Faithful(o, opts, |selected|, r);
    var i :| 0 <= i < |r.group| && r.group[i] == x;
    var c := LeafCulprits(o, opts, r)[i];
    assert c in LeafCulprits(o, opts, r) && c.classification == r.outcome;
  }

  /** A bad group above the minimum size, short of the last round, and a proper part of it one level down. */
  ghost predicate PartOf(o: Oracle, opts: Options, parent: Record, r: Record) {
    && Bad(o, opts.groupTimeout, opts.slowThreshold, parent.group)
    && |parent.group| > opts.minGroupSize && parent.depth < opts.maxRounds
    && r.depth == parent.depth + 1 && Stretch(r.group, parent.group) && |r.group| < |parent.group|
  }

  ghost predicate HasParent(o: Oracle, opts: Options, records: seq<Record>, r: Record) {
    exists parent :: parent in records && PartOf(o, opts, parent, r)
  }

  /** Below the initial groups, a group is run only as a part of a bad group that may be divided. */
  lemma DividedOnlyWhenLarge(o: Oracle, opts: Options, selected: seq<string>)
    requires Accepted(opts)
    ensures var records := Search(o, opts, selected).records;
      forall r :: r in records && r.depth > 0 ==> HasParent(o, opts, records, r)
  {
    var records := Search(o, opts, selected).records;
    EveryRunHasOrigin(o, opts, selected);
    StartsWithinSelection(opts, selected);
    RecordsFaithful(o, opts, selected, |selected|);
    forall r | r in records && r.depth > 0
      ensures HasParent(o, opts, records, r)
    {
      assert HasOrigin(opts, FirstWork(opts, selected), records, r);
      var parent :| parent in records && Divides(opts, parent, r);
      assert Faithful(o, opts, |selected|, parent);
      ChildIsPart(opts, parent.group, r.group);
      assert PartOf(o, opts, parent, r);
    }
  }

  lemma ChildIsPart(opts: Options, group: seq<string>, child: seq<string>)
    requires Accepted(opts) && |group| >= 2 && child in Children(opts, group)
    ensures Stretch(child, group) && |child| < |group|
  {
    ChildrenCorrect(opts, group, 0);
    MemberIsStretch(Children(opts, group), child);
    CeilDivSmaller(|group|, opts.splitFactor);
  }

  /** A share times the number of tests is the elapsed time, up to a remainder smaller than that number. */
  lemma ShareMeans(elapsed: nat, count: nat)
    requires 0 < count < 0x1_0000_0000
    ensures Share(elapsed, count) * count <= elapsed < (Share(elapsed, count) + 1) * count
  {
  }

  /** The recorded leaf that explains the culprit lies within an initial group that bounds its size. */
  ghost predicate HasOwnLeaf(opts: Options, selected: seq<string>, records: seq<Record>, c: Culprit)
    requires Accepted(opts)
  {
    exists r :: r in records && Explains(opts, r, c) && LeafWithin(opts, selected, r)
  }

  ghost predicate LeafWithin(opts: Options, selected: seq<string>, r: Record)
    requires Accepted(opts)
  {
    exists g :: g in InitialGroups(selected, opts.initialGroupSize, opts.initialGroups)
      && Stretch(r.group, g) && |r.group| <= Max(opts.minGroupSize, SizeCap(opts, |g|, opts.maxRounds))
  }

  lemma LeafIsWithin(o: Oracle, opts: Options, selected: seq<string>, r: Record)
    requires Accepted(opts) && WithinInitial(opts, selected, r)
    requires r.depth <= opts.maxRounds && Leaf(opts, r.group, r.depth)
    ensures LeafWithin(opts, selected, r)
  {
    var g :| g in InitialGroups(selected, opts.initialGroupSize, opts.initialGroups)
      && Below(opts, g, r.group, r.depth);
    assert r.depth < opts.maxRounds ==> |r.group| <= opts.minGroupSize;
  }

  /** The leaf of a culprit is bounded by its own initial group, which may be a short last one. */
  lemma CulpritsStem(o: Oracle, opts: Options, selected: seq<string>)
    requires Accepted(opts)
    ensures forall c :: c in Search(o, opts, selected).culprits ==>
      HasOwnLeaf(opts, selected, Search(o, opts, selected).records, c)
  {
    ExploreExplained(o, opts, FirstWork(opts, selected));
    RecordsStem(o, opts, selected);
    StartsWithinSelection(opts, selected);
    RecordsFaithful(o, opts, selected, |selected|);
    forall c | c in Search(o, opts, selected).culprits
      ensures HasOwnLeaf(opts, selected, Search(o, opts, selected).records, c)
    {
      var r :| r in Search(o, opts, selected).records && Explains(opts, r, c);
      assert Faithful(o, opts, |selected|, r);
      LeafIsWithin(o, opts, selected, r);
    }
  }
}
