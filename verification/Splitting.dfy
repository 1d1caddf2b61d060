/** Dividing a test list into contiguous groups (bisect.rs, `split_into` and `initial_groups`). */
module Splitting {
  import opened Sequences

  /** `n / q` rounded up: how many blocks of `q` cover `n`. */
  function CeilDiv(n: nat, q: nat): nat
    requires q > 0
  {
    if n == 0 then 0 else if n <= q then 1 else 1 + CeilDiv(n - q, q)
  }

  /** `CeilDiv(n, q)` is the least `m` with `n <= m * q`. */
  lemma {:induction false} CeilDivLeast(n: nat, q: nat, m: nat)
    requires q > 0
    ensures CeilDiv(n, q) <= m <==> n <= m * q
    decreases n
  {
    if n == 0 || m == 0 {
      assert 0 <= m * q;
    } else {
      assert m * q == (m - 1) * q + q;
      assert 0 <= (m - 1) * q;
      if n > q {
        CeilDivLeast(n - q, q, m - 1);
      }
    }
  }

  /** The same with the product as a number. */
  lemma CeilDivAtMost(n: nat, q: nat, m: nat, product: nat)
    requires q > 0 && product == m * q
    ensures CeilDiv(n, q) <= m <==> n <= product
  {
    CeilDivLeast(n, q, m);
  }

  lemma {:induction false} CeilDivNoMore(n: nat, q: nat)
    requires q > 0
    ensures CeilDiv(n, q) <= n
    decreases n
  {
    if n > q {
      CeilDivNoMore(n - q, q);
    }
  }

  lemma CeilDivSmaller(n: nat, q: nat)
    requires n >= 2 && q >= 2
    ensures CeilDiv(n, q) < n
  {
    if n > q {
      CeilDivNoMore(n - q, q);
    }
  }

  /** `n / q` and `n % q` by repeated subtraction. */
  function Quotient(n: nat, q: nat): nat
    requires q > 0
  {
    if n < q then 0 else 1 + Quotient(n - q, q)
  }

  function Remainder(n: nat, q: nat): (r: nat)
    requires q > 0
    ensures r < q
  {
    if n < q then n else Remainder(n - q, q)
  }

  lemma {:induction false} Division(n: nat, q: nat)
    requires q > 0
    ensures n == q * Quotient(n, q) + Remainder(n, q)
    decreases n
  {
    if n >= q {
      Division(n - q, q);
      assert q * Quotient(n, q) == q + q * Quotient(n - q, q);
    }
  }

  lemma Spread(q: nat, a: nat, d: nat)
    ensures q * (a + d) == q * a + q * d
    ensures d > 0 ==> q * d >= q
  {
    if d > 0 {
      assert q * d == q + q * (d - 1);
    }
  }

  lemma DivisionUnique(q: nat, a: nat, r: nat, b: nat, s: nat)
    requires r < q && s < q && q * a + r == q * b + s
    ensures a == b && r == s
  {
    if a < b {
      Spread(q, a, b - a);
    } else {
      Spread(q, b, a - b);
    }
  }

  lemma DivisionIs(n: nat, q: nat)
    requires q > 0
    ensures n / q == Quotient(n, q) && n % q == Remainder(n, q)
  {
    Division(n, q);
    DivisionUnique(q, n / q, n % q, Quotient(n, q), Remainder(n, q));
  }

  /** How many groups `n` names end up in when `k` are asked for. */
  function Parts(n: nat, k: nat): nat {
    Min(Max(k, 1), Max(n, 1))
  }

  /** Where group `i` starts when every group has `base` names and the first `rem` have one more. */
  function Start(base: nat, rem: nat, i: nat): nat {
    if i == 0 then 0 else Start(base, rem, i - 1) + GroupSize(base, rem, i - 1)
  }

  function GroupSize(base: nat, rem: nat, i: nat): nat {
    base + if i < rem then 1 else 0
  }

  lemma {:induction false} StartClosedForm(base: nat, rem: nat, i: nat)
    ensures Start(base, rem, i) == i * base + Min(i, rem)
  {
    if i > 0 {
      StartClosedForm(base, rem, i - 1);
      assert i * base == (i - 1) * base + base;
    }
  }

  function Part(names: seq<string>, base: nat, rem: nat, i: nat): seq<string> {
    if Start(base, rem, i + 1) <= |names| then names[Start(base, rem, i)..Start(base, rem, i + 1)] else []
  }

  function PartsUpTo(names: seq<string>, base: nat, rem: nat, count: nat): seq<seq<string>> {
    seq(count, i requires 0 <= i < count => Part(names, base, rem, i))
  }

  /** `names` in `Parts(|names|, k)` contiguous groups; no group for no names. */
  function Split(names: seq<string>, k: nat): seq<seq<string>> {
    var n, parts := |names|, Parts(|names|, k);
    if names == [] then [] else PartsUpTo(names, Quotient(n, parts), Remainder(n, parts), parts)
  }

  lemma {:induction false} StartMonotone(base: nat, rem: nat, i: nat, j: nat)
    requires i <= j
    ensures Start(base, rem, i) <= Start(base, rem, j)
    decreases j - i
  {
    if i < j {
      StartMonotone(base, rem, i + 1, j);
    }
  }

  lemma {:induction false} FlattenParts(names: seq<string>, base: nat, rem: nat, count: nat)
    requires Start(base, rem, count) <= |names|
    ensures Flatten(PartsUpTo(names, base, rem, count)) == names[..Start(base, rem, count)]
  {
    if count > 0 {
      FlattenParts(names, base, rem, count - 1);
      PartsUpToStep(names, base, rem, count - 1);
      FlattenPush(PartsUpTo(names, base, rem, count - 1), Part(names, base, rem, count - 1));
      var from, to := Start(base, rem, count - 1), Start(base, rem, count);
      assert names[..from] + names[from..to] == names[..to];
    }
  }

  lemma PartsUpToStep(names: seq<string>, base: nat, rem: nat, count: nat)
    ensures PartsUpTo(names, base, rem, count + 1)
      == PartsUpTo(names, base, rem, count) + [Part(names, base, rem, count)]
  {
  }

  lemma PartLength(names: seq<string>, base: nat, rem: nat, i: nat, parts: nat)
    requires i < parts && Start(base, rem, parts) <= |names|
    ensures |Part(names, base, rem, i)| == GroupSize(base, rem, i)
  {
    StartMonotone(base, rem, i + 1, parts);
  }

  lemma BaseAndRemainder(n: nat, k: nat)
    requires n > 0
    ensures var parts := Parts(n, k);
      Start(Quotient(n, parts), Remainder(n, parts), parts) == n && Quotient(n, parts) >= 1
  {
    var parts := Parts(n, k);
    StartClosedForm(Quotient(n, parts), Remainder(n, parts), parts);
    Division(n, parts);
  }

  lemma BalancedSize(base: nat, rem: nat, parts: nat, size: nat, q: nat)
    requires parts > 0 && q >= parts && rem < parts
    requires base > 0
    requires size == base || (size == base + 1 && rem > 0)
    requires q > parts ==> parts == parts * base + rem
    ensures size <= CeilDiv(parts * base + rem, q)
  {
    CeilDivLeast(parts * base + rem, q, size - 1);
    if q > parts {
      OneEach(parts, base, rem);
    } else {
      assert parts * base == parts * (base - 1) + parts;
    }
  }

  lemma OneEach(parts: nat, base: nat, rem: nat)
    requires parts > rem && base > 0 && parts == parts * base + rem
    ensures base == 1 && rem == 0
  {
    assert parts * base == parts + parts * (base - 1);
    assert base > 1 ==> parts * (base - 1) >= parts;
  }

  /**
   * A split keeps every name once and in order, has no empty group, is balanced to within one name,
   * puts the larger groups first, and makes no group larger than an exact division rounded up.
   */
  lemma {:induction false} SplitCorrect(names: seq<string>, k: nat)
    ensures Flatten(Split(names, k)) == names
    ensures names != [] ==> |Split(names, k)| == Parts(|names|, k)
    ensures forall g :: g in Split(names, k) ==> 0 < |g| <= CeilDiv(|names|, Max(k, 1))
    ensures forall i, j :: 0 <= i <= j < |Split(names, k)| ==>
      |Split(names, k)[j]| <= |Split(names, k)[i]| <= |Split(names, k)[j]| + 1
  {
    if names != [] {
      BaseAndRemainder(|names|, k);
      var parts := Parts(|names|, k);
      PartsCorrect(names, Quotient(|names|, parts), Remainder(|names|, parts), parts, Max(k, 1));
    }
  }

  lemma PartsCorrect(names: seq<string>, base: nat, rem: nat, parts: nat, q: nat)
    requires base >= 1 && rem < parts <= q && Start(base, rem, parts) == |names|
    requires q > parts ==> parts == |names|
    ensures Flatten(PartsUpTo(names, base, rem, parts)) == names
    ensures forall g :: g in PartsUpTo(names, base, rem, parts) ==> 0 < |g| <= CeilDiv(|names|, q)
    ensures forall i, j :: 0 <= i <= j < parts ==>
      var out := PartsUpTo(names, base, rem, parts);
      |out[j]| <= |out[i]| <= |out[j]| + 1
  {
    StartClosedForm(base, rem, parts);
    FlattenParts(names, base, rem, parts);
    var out := PartsUpTo(names, base, rem, parts);
    forall i | 0 <= i < parts
      ensures |out[i]| == GroupSize(base, rem, i) && |out[i]| <= CeilDiv(|names|, q)
    {
      PartLength(names, base, rem, i, parts);
      BalancedSize(base, rem, parts, |out[i]|, q);
    }
  }

  /** `split_into`. */
  method SplitInto(names: seq<string>, k: nat) returns (out: seq<seq<string>>)
    ensures out == Split(names, k)
  {
    var n := |names|;
    var k' := Parts(n, k);
    var base := n / k';
    var rem := n % k';
    DivisionIs(n, k');
    if n > 0 {
      BaseAndRemainder(n, k);
    }
    out := Distribute(names, k', base, rem);
  }

  /** The loop of `split_into`, for a division of the names into `k` times `base` plus `rem`. */
  method Distribute(names: seq<string>, k: nat, base: nat, rem: nat) returns (out: seq<seq<string>>)
    requires Start(base, rem, k) == |names|
    requires if names == [] then base == 0 && rem == 0 else base > 0
    ensures out == if names == [] then [] else PartsUpTo(names, base, rem, k)
  {
    out := [];
    var idx := 0;
    for i := 0 to k
      invariant idx == Start(base, rem, i) <= |names|
      invariant out == if names == [] then [] else PartsUpTo(names, base, rem, i)
    {
      var size := base + if i < rem then 1 else 0;
      StartMonotone(base, rem, i + 1, k);
      if size == 0 {
        continue;
      }
      PartsUpToStep(names, base, rem, i);
      out := out + [names[idx..idx + size]];
      idx := idx + size;
    }
  }

  /** `slice::chunks`: groups of `size` names, the last one possibly shorter. */
  function ChunksOf(names: seq<string>, size: nat): seq<seq<string>>
    requires size > 0
    decreases |names|
  {
    if names == [] then []
    else if |names| <= size then [names]
    else [names[..size]] + ChunksOf(names[size..], size)
  }

  lemma {:induction false} ChunksOfCorrect(names: seq<string>, size: nat)
    requires size > 0
    ensures Flatten(ChunksOf(names, size)) == names
    ensures forall g :: g in ChunksOf(names, size) ==> 0 < |g| <= size
    decreases |names|
  {
    if names == [] {
    } else if |names| <= size {
      FlattenSingleton(names);
    } else {
      var rest := ChunksOf(names[size..], size);
      ChunksOfCorrect(names[size..], size);
      assert ChunksOf(names, size) == [names[..size]] + rest;
      assert Flatten(ChunksOf(names, size)) == names[..size] + Flatten(rest);
    }
  }

  /** Only the last group may be short, which with the two facts above fixes every group. */
  lemma {:induction false} ChunksOfFull(names: seq<string>, size: nat)
    requires size > 0
    ensures forall i :: 0 <= i < |ChunksOf(names, size)| - 1 ==> |ChunksOf(names, size)[i]| == size
    decreases |names|
  {
    if |names| > size {
      ChunksOfFull(names[size..], size);
    }
  }

  /** `initial_groups`, with the two options that choose the division. */
  function InitialGroups(selected: seq<string>, groupSize: Option<nat>, groupCount: Option<nat>): seq<seq<string>> {
    match (groupSize, groupCount)
    case (Some(size), _) => ChunksOf(selected, Max(size, 1))
    case (None, Some(k)) => Split(selected, Max(k, 1))
    case (None, None) => [selected]
  }

  lemma {:induction false} InitialGroupsCorrect(selected: seq<string>, groupSize: Option<nat>, groupCount: Option<nat>)
    ensures Flatten(InitialGroups(selected, groupSize, groupCount)) == selected
    ensures selected != [] ==>
      forall g :: g in InitialGroups(selected, groupSize, groupCount) ==> 0 < |g| <= |selected|
    ensures selected != [] ==> 1 <= |InitialGroups(selected, groupSize, groupCount)| <= |selected|
  {
    var groups := InitialGroups(selected, groupSize, groupCount);
    match (groupSize, groupCount) {
      case (Some(size), _) => ChunksOfCorrect(selected, Max(size, 1));
      case (None, Some(k)) => SplitCorrect(selected, Max(k, 1));
      case (None, None) => FlattenSingleton(selected);
    }
    forall g | selected != [] && g in groups
      ensures 0 < |g| <= |selected|
    {
      MemberNoLonger(groups, g);
    }
    if selected != [] {
      NonEmptyCount(groups);
    }
  }

  lemma {:induction false} MemberNoLonger(groups: seq<seq<string>>, g: seq<string>)
    requires g in groups
    ensures |g| <= |Flatten(groups)|
  {
    if g != groups[0] {
      MemberNoLonger(groups[1..], g);
    }
  }

  lemma {:induction false} NonEmptyCount(groups: seq<seq<string>>)
    requires forall g :: g in groups ==> g != []
    ensures |groups| <= |Flatten(groups)|
  {
    if groups != [] {
      assert forall g :: g in groups[1..] ==> g in groups;
      assert groups[0] in groups;
      NonEmptyCount(groups[1..]);
    }
  }

  /**
   * The initial groups that each option asks for: groups of one size but for a shorter last one; as many
   * groups as asked for, or one for each name, that differ by one name at most; or the whole selection.
   */
  lemma InitialGroupsMeans(selected: seq<string>, groupSize: Option<nat>, groupCount: Option<nat>)
    requires selected != []
    ensures var groups := InitialGroups(selected, groupSize, groupCount);
      && (groupSize.Some? ==>
            var size := if groupSize.value == 0 then 1 else groupSize.value;
            && (forall i :: 0 <= i < |groups| - 1 ==> |groups[i]| == size)
            && (forall i :: 0 <= i < |groups| ==> |groups[i]| <= size))
      && (groupSize.None? && groupCount.Some? ==>
            && (groupCount.value == 0 ==> |groups| == 1)
            && (groupCount.value > 0 ==>
                  |groups| == if groupCount.value < |selected| then groupCount.value else |selected|)
            && (forall i, j :: 0 <= i <= j < |groups| ==> |groups[j]| <= |groups[i]| <= |groups[j]| + 1))
      && (groupSize.None? && groupCount.None? ==> groups == [selected])
  {
    if groupSize.Some? {
      ChunksOfCorrect(selected, Max(groupSize.value, 1));
      ChunksOfFull(selected, Max(groupSize.value, 1));
    } else if groupCount.Some? {
      SplitCorrect(selected, Max(groupCount.value, 1));
    }
  }
}
