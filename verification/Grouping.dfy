/** Grouping suggestions and reading back what the user picked (elicit.rs). */
module Grouping {
  import opened Sequences

  datatype Suggestion = Suggestion(id: nat, code: Option<string>, file: string, payload: nat)

  datatype GroupMode = ByLint | ByPath

  datatype Group = Group(key: string, members: seq<Suggestion>)

  /** The strings a dialog can return, by how they are read. */
  datatype Pick = View(mode: GroupMode) | SkipAll | All(key: string) | One(id: nat) | Unreadable

  datatype Selection = ModeSwitch(mode: GroupMode) | Selected(ids: seq<nat>)

  function Decimal(n: nat): string {
    if n < 10 then [Digit(n)] else Decimal(n / 10) + [Digit(n % 10)]
  }

  function Digit(d: nat): char
    requires d < 10
  {
    '0' + d as char
  }

  const ID_PREFIX := "_id:"

  /** The key of a suggestion: its lint code, or its own id when it has none; or its file. */
  function Key(mode: GroupMode, s: Suggestion): string {
    match mode
    case ByLint => if s.code.Some? then s.code.value else ID_PREFIX + Decimal(s.id)
    case ByPath => s.file
  }

  // ----- the groups as a function of the suggestions -----

  function Members(mode: GroupMode, ss: seq<Suggestion>, key: string): seq<Suggestion> {
    if ss == [] then []
    else
      var s := ss[|ss| - 1];
      Members(mode, ss[..|ss| - 1], key) + if Key(mode, s) == key then [s] else []
  }

  /** The distinct keys in the order of their first occurrence. */
  function Keys(mode: GroupMode, ss: seq<Suggestion>): seq<string> {
    if ss == [] then []
    else
      var earlier, key := Keys(mode, ss[..|ss| - 1]), Key(mode, ss[|ss| - 1]);
      if key in earlier then earlier else earlier + [key]
  }

  function GroupsFor(mode: GroupMode, ss: seq<Suggestion>, keys: seq<string>): seq<Group> {
    seq(|keys|, i requires 0 <= i < |keys| => Group(keys[i], Members(mode, ss, keys[i])))
  }

  lemma GroupAt(mode: GroupMode, ss: seq<Suggestion>, keys: seq<string>, i: nat)
    requires i < |keys|
    ensures GroupsFor(mode, ss, keys)[i] == Group(keys[i], Members(mode, ss, keys[i]))
  {
  }

  /** A stable sort by descending size, one group at a time from the back. */
  function Insert(g: Group, sorted: seq<Group>): seq<Group> {
    if sorted == [] || |g.members| >= |sorted[0].members| then [g] + sorted
    else [sorted[0]] + Insert(g, sorted[1..])
  }

  function LargestFirst(groups: seq<Group>): seq<Group> {
    if groups == [] then [] else Insert(groups[0], LargestFirst(groups[1..]))
  }

  function Grouped(mode: GroupMode, ss: seq<Suggestion>): seq<Group> {
    LargestFirst(GroupsFor(mode, ss, Keys(mode, ss)))
  }

  lemma MembersPush(mode: GroupMode, ss: seq<Suggestion>, s: Suggestion, key: string)
    ensures Members(mode, ss + [s], key) == Members(mode, ss, key) + if Key(mode, s) == key then [s] else []
  {
    assert (ss + [s])[..|ss|] == ss;
  }

  /** The map holds every key seen, with its members. */
  ghost predicate Holds(mode: GroupMode, ss: seq<Suggestion>, members: map<string, seq<Suggestion>>, k: string) {
    (if k in members then members[k] else []) == Members(mode, ss, k)
  }

  ghost predicate Collected(
    mode: GroupMode, ss: seq<Suggestion>, order: seq<string>, members: map<string, seq<Suggestion>>)
  {
    && order == Keys(mode, ss)
    && (forall k :: k in members <==> k in order)
    && forall k :: Holds(mode, ss, members, k)
  }

  lemma CollectedStep(
      mode: GroupMode, ss: seq<Suggestion>, s: Suggestion, order: seq<string>, members: map<string, seq<Suggestion>>)
    requires Collected(mode, ss, order, members)
    ensures var key := Key(mode, s);
      Collected(mode, ss + [s],
        if key in members then order else order + [key],
        members[key := (if key in members then members[key] else []) + [s]])
  {
    var key := Key(mode, s);
    var grown := members[key := (if key in members then members[key] else []) + [s]];
    assert (ss + [s])[..|ss|] == ss;
    forall k
      ensures Holds(mode, ss + [s], grown, k)
    {
      HoldsStep(mode, ss, s, members, k);
    }
  }

  lemma HoldsStep(mode: GroupMode, ss: seq<Suggestion>, s: Suggestion, members: map<string, seq<Suggestion>>, k: string)
    requires Holds(mode, ss, members, k)
    ensures var key := Key(mode, s);
      Holds(mode, ss + [s], members[key := (if key in members then members[key] else []) + [s]], k)
  {
    MembersPush(mode, ss, s, k);
  }

  lemma UpdateTwice<K, V>(m: map<K, V>, k: K, a: V, b: V)
    ensures m[k := a][k := b] == m[k := b]
  {
  }

  /** The first loop of `group_by`: keys in order, members in a map. */
  method Collect(mode: GroupMode, ss: seq<Suggestion>)
    returns (order: seq<string>, members: map<string, seq<Suggestion>>)
    ensures Collected(mode, ss, order, members)
  {
    order, members := [], map[];
    for i := 0 to |ss|
      invariant Collected(mode, ss[..i], order, members)
    {
      var key := Key(mode, ss[i]);
      CollectedStep(mode, ss[..i], ss[i], order, members);
      PrefixStep(ss, i);
      if key !in members {
        UpdateTwice(members, key, [], [] + [ss[i]]);
        order := order + [key];
        members := members[key := []];
      }
      members := members[key := members[key] + [ss[i]]];
    }
    assert ss[..|ss|] == ss;
  }

  lemma GroupsForPush(mode: GroupMode, ss: seq<Suggestion>, keys: seq<string>, key: string)
    ensures GroupsFor(mode, ss, keys + [key]) == GroupsFor(mode, ss, keys) + [Group(key, Members(mode, ss, key))]
  {
  }

  /** The groups in key order, each taken out of the map. */
  method Assemble(mode: GroupMode, ss: seq<Suggestion>, order: seq<string>, all: map<string, seq<Suggestion>>)
    returns (groups: seq<Group>)
    requires forall i, j :: 0 <= i < j < |order| ==> order[i] != order[j]
    requires forall k :: k in order ==> k in all && all[k] == Members(mode, ss, k)
    ensures groups == GroupsFor(mode, ss, order)
  {
    var members := all;
    groups := [];
    for i := 0 to |order|
      invariant groups == GroupsFor(mode, ss, order[..i])
      invariant forall j :: i <= j < |order| ==> order[j] in members && members[order[j]] == all[order[j]]
    {
      var key := order[i];
      PrefixStep(order, i);
      GroupsForPush(mode, ss, order[..i], key);
      groups := groups + [Group(key, members[key])];
      members := members - {key};
    }
    assert order[..|order|] == order;
  }

  /** `group_by`: collect, then assemble, then one stable sort. */
  method GroupBy(mode: GroupMode, ss: seq<Suggestion>) returns (groups: seq<Group>)
    ensures groups == Grouped(mode, ss)
  {
    var order, members := Collect(mode, ss);
    KeysDistinct(mode, ss);
    assert forall k :: k in order ==> Holds(mode, ss, members, k);
    groups := Assemble(mode, ss, order, members);
    groups := LargestFirst(groups);
  }

  lemma {:induction false} KeysDistinct(mode: GroupMode, ss: seq<Suggestion>)
    ensures forall i, j :: 0 <= i < j < |Keys(mode, ss)| ==> Keys(mode, ss)[i] != Keys(mode, ss)[j]
    decreases |ss|
  {
    if ss != [] {
      KeysDistinct(mode, ss[..|ss| - 1]);
    }
  }

  // ----- a partition -----

  lemma {:induction false} KeySeen(mode: GroupMode, ss: seq<Suggestion>, s: Suggestion)
    requires s in ss
    ensures Key(mode, s) in Keys(mode, ss)
    decreases |ss|
  {
    var n := |ss| - 1;
    if s != ss[n] {
      KeySeen(mode, ss[..n], s);
    }
  }

  lemma {:induction false} KeyOfSome(mode: GroupMode, ss: seq<Suggestion>, key: string) returns (s: Suggestion)
    requires key in Keys(mode, ss)
    ensures s in ss && Key(mode, s) == key
    decreases |ss|
  {
    var n := |ss| - 1;
    s := ss[n];
    if Key(mode, s) != key {
      s := KeyOfSome(mode, ss[..n], key);
    }
  }

  lemma KeysCover(mode: GroupMode, ss: seq<Suggestion>, key: string)
    ensures key in Keys(mode, ss) <==> exists s :: s in ss && Key(mode, s) == key
  {
    if key in Keys(mode, ss) {
      var s := KeyOfSome(mode, ss, key);
    }
    if s :| s in ss && Key(mode, s) == key {
      KeySeen(mode, ss, s);
    }
  }

  lemma {:induction false} InsertKeepsAll(g: Group, sorted: seq<Group>)
    ensures multiset(Insert(g, sorted)) == multiset(sorted) + multiset{g}
  {
    if sorted != [] {
      assert sorted == [sorted[0]] + sorted[1..];
      if |g.members| < |sorted[0].members| {
        InsertKeepsAll(g, sorted[1..]);
      }
    }
  }

  lemma {:induction false} SortKeepsAll(groups: seq<Group>)
    ensures multiset(LargestFirst(groups)) == multiset(groups)
  {
    if groups != [] {
      SortKeepsAll(groups[1..]);
      InsertKeepsAll(groups[0], LargestFirst(groups[1..]));
      assert groups == [groups[0]] + groups[1..];
    }
  }

  /**
   * The groups partition the suggestions: one group for every key that occurs, holding exactly the
   * suggestions with that key, in input order.
   */
  lemma GroupedIsPartition(mode: GroupMode, ss: seq<Suggestion>)
    ensures forall g :: g in Grouped(mode, ss) <==>
      g.members == Members(mode, ss, g.key) && exists s :: s in ss && Key(mode, s) == g.key
    ensures forall g :: multiset(Grouped(mode, ss))[g] <= 1
  {
    var keys := Keys(mode, ss);
    var groups := GroupsFor(mode, ss, keys);
    SortKeepsAll(groups);
    KeysDistinct(mode, ss);
    forall g
      ensures multiset(groups)[g] <= 1
    {
      DistinctOnce(groups, g);
    }
    forall g
      ensures g in Grouped(mode, ss) <==>
        g.members == Members(mode, ss, g.key) && exists s :: s in ss && Key(mode, s) == g.key
    {
      assert g in Grouped(mode, ss) <==> g in multiset(groups);
      KeysCover(mode, ss, g.key);
      if g.key in keys && g.members == Members(mode, ss, g.key) {
        var i :| 0 <= i < |keys| && keys[i] == g.key;
        assert groups[i] == g;
      }
    }
  }

  lemma {:induction false} DistinctOnce(groups: seq<Group>, g: Group)
    requires forall i, j :: 0 <= i < j < |groups| ==> groups[i].key != groups[j].key
    ensures multiset(groups)[g] <= 1
  {
    if groups != [] {
      assert groups == [groups[0]] + groups[1..];
      DistinctOnce(groups[1..], g);
      if groups[0] == g {
        assert forall j :: 0 <= j < |groups[1..]| ==> groups[1..][j] == groups[j + 1];
        assert g !in groups[1..];
      }
    }
  }

  // ----- in the promised order -----

  /** The position of the first suggestion with the key. */
  function First(mode: GroupMode, ss: seq<Suggestion>, key: string): nat {
    if ss == [] || Key(mode, ss[0]) == key then 0 else 1 + First(mode, ss[1..], key)
  }

  predicate Before(mode: GroupMode, ss: seq<Suggestion>, a: Group, b: Group) {
    |a.members| > |b.members| ||
    (|a.members| == |b.members| && First(mode, ss, a.key) < First(mode, ss, b.key))
  }

  predicate Ordered(mode: GroupMode, ss: seq<Suggestion>, groups: seq<Group>) {
    forall i, j :: 0 <= i < j < |groups| ==> Before(mode, ss, groups[i], groups[j])
  }

  lemma {:induction false} FirstOfSeen(mode: GroupMode, ss: seq<Suggestion>, s: Suggestion, key: string)
    ensures First(mode, ss + [s], key) ==
      if First(mode, ss, key) < |ss| || Key(mode, s) == key then First(mode, ss, key) else |ss| + 1
    ensures First(mode, ss, key) <= |ss|
    ensures First(mode, ss, key) < |ss| <==> exists x :: x in ss && Key(mode, x) == key
  {
    if ss == [] {
      assert (ss + [s])[1..] == [];
    } else {
      assert (ss + [s])[0] == ss[0] && (ss + [s])[1..] == ss[1..] + [s];
      FirstOfSeen(mode, ss[1..], s, key);
      assert ss[0] in ss && forall x :: x in ss <==> x == ss[0] || x in ss[1..];
    }
  }

  predicate ByFirst(mode: GroupMode, ss: seq<Suggestion>, keys: seq<string>) {
    forall i, j :: 0 <= i < j < |keys| ==> First(mode, ss, keys[i]) < First(mode, ss, keys[j])
  }

  lemma {:induction false} KeysByFirst(mode: GroupMode, ss: seq<Suggestion>)
    ensures ByFirst(mode, ss, Keys(mode, ss))
    decreases |ss|
  {
    if ss != [] {
      var n := |ss| - 1;
      assert ss == ss[..n] + [ss[n]];
      KeysByFirst(mode, ss[..n]);
      forall k | k in Keys(mode, ss)
        ensures First(mode, ss, k) == if k in Keys(mode, ss[..n]) then First(mode, ss[..n], k) else n
        ensures k in Keys(mode, ss[..n]) ==> First(mode, ss, k) < n
      {
        FirstOfSeen(mode, ss[..n], ss[n], k);
        KeysCover(mode, ss[..n], k);
      }
    }
  }

  lemma {:induction false} InsertMembers(g: Group, sorted: seq<Group>, h: Group)
    ensures h in Insert(g, sorted) <==> h == g || h in sorted
  {
    if sorted != [] && |g.members| < |sorted[0].members| {
      InsertMembers(g, sorted[1..], h);
    }
  }

  lemma OrderedFirst(mode: GroupMode, ss: seq<Suggestion>, g: Group, rest: seq<Group>)
    requires Ordered(mode, ss, rest) && forall h :: h in rest ==> Before(mode, ss, g, h)
    ensures Ordered(mode, ss, [g] + rest)
  {
  }

  lemma OrderedRest(mode: GroupMode, ss: seq<Suggestion>, groups: seq<Group>, h: Group)
    requires groups != [] && Ordered(mode, ss, groups)
    ensures Ordered(mode, ss, groups[1..]) && (h in groups[1..] ==> Before(mode, ss, groups[0], h))
  {
  }

  lemma {:induction false} InsertOrdered(mode: GroupMode, ss: seq<Suggestion>, g: Group, sorted: seq<Group>)
    requires Ordered(mode, ss, sorted)
    requires forall h :: h in sorted ==> First(mode, ss, g.key) < First(mode, ss, h.key)
    ensures Ordered(mode, ss, Insert(g, sorted))
  {
    if sorted == [] || |g.members| >= |sorted[0].members| {
      forall h | h in sorted
        ensures Before(mode, ss, g, h)
      {
        OrderedRest(mode, ss, sorted, h);
        assert h == sorted[0] || h in sorted[1..];
      }
      OrderedFirst(mode, ss, g, sorted);
    } else {
      var first, rest := sorted[0], sorted[1..];
      OrderedRest(mode, ss, sorted, g);
      InsertOrdered(mode, ss, g, rest);
      forall h | h in Insert(g, rest)
        ensures Before(mode, ss, first, h)
      {
        InsertMembers(g, rest, h);
        OrderedRest(mode, ss, sorted, h);
      }
      OrderedFirst(mode, ss, first, Insert(g, rest));
    }
  }

  lemma {:induction false} SortOrdered(mode: GroupMode, ss: seq<Suggestion>, groups: seq<Group>)
    requires forall i, j :: 0 <= i < j < |groups| ==> First(mode, ss, groups[i].key) < First(mode, ss, groups[j].key)
    ensures Ordered(mode, ss, LargestFirst(groups))
  {
    if groups != [] {
      var rest := groups[1..];
      SortOrdered(mode, ss, rest);
      SortKeepsAll(rest);
      forall h | h in LargestFirst(rest)
        ensures First(mode, ss, groups[0].key) < First(mode, ss, h.key)
      {
        assert h in multiset(LargestFirst(rest));
        var j :| 0 <= j < |rest| && rest[j] == h;
        assert groups[j + 1] == h;
      }
      InsertOrdered(mode, ss, groups[0], LargestFirst(rest));
    }
  }

  /** Groups come largest first, and equally large groups by first occurrence. */
  lemma GroupedInOrder(mode: GroupMode, ss: seq<Suggestion>)
    ensures Ordered(mode, ss, Grouped(mode, ss))
  {
    KeysByFirst(mode, ss);
    var keys := Keys(mode, ss);
    var groups := GroupsFor(mode, ss, keys);
    forall i, j | 0 <= i < j < |groups|
      ensures First(mode, ss, groups[i].key) < First(mode, ss, groups[j].key)
    {
      assert First(mode, ss, keys[i]) < First(mode, ss, keys[j]);
      GroupAt(mode, ss, keys, i);
      GroupAt(mode, ss, keys, j);
    }
    SortOrdered(mode, ss, groups);
  }

  // ----- suggestions without a code -----

  lemma {:induction false} DecimalInjective(m: nat, n: nat)
    requires Decimal(m) == Decimal(n)
    ensures m == n
    decreases m
  {
    DecimalEnds(m);
    DecimalEnds(n);
    if m >= 10 && n >= 10 {
      assert Decimal(m)[..|Decimal(m)| - 1] == Decimal(n)[..|Decimal(n)| - 1];
      DecimalInjective(m / 10, n / 10);
    }
  }

  lemma DecimalEnds(n: nat)
    ensures |Decimal(n)| >= 1 && Decimal(n)[|Decimal(n)| - 1] == Digit(n % 10)
    ensures n >= 10 ==> |Decimal(n)| >= 2 && Decimal(n)[..|Decimal(n)| - 1] == Decimal(n / 10)
  {
    if n >= 10 {
      assert |Decimal(n / 10)| >= 1 by {
        if n / 10 >= 10 {
          assert Decimal(n / 10) == Decimal(n / 10 / 10) + [Digit(n / 10 % 10)];
        }
      }
    }
  }

  /** Ids are assigned one to a suggestion. */
  predicate DistinctIds(ss: seq<Suggestion>) {
    forall i, j :: 0 <= i < j < |ss| ==> ss[i].id != ss[j].id
  }

  lemma {:induction false} MembersMeans(mode: GroupMode, ss: seq<Suggestion>, key: string)
    ensures forall x :: x in Members(mode, ss, key) <==> x in ss && Key(mode, x) == key
    decreases |ss|
  {
    if ss != [] {
      var n := |ss| - 1;
      MembersMeans(mode, ss[..n], key);
      assert forall x :: x in ss <==> x in ss[..n] || x == ss[n];
    }
  }

  /**
   * In the lint view a suggestion without a code is alone in its group, unless another's lint code
   * spells out its id key.
   */
  lemma CodelessAlone(ss: seq<Suggestion>, s: Suggestion)
    requires DistinctIds(ss) && s in ss && s.code.None?
    ensures (forall x :: x in Members(ByLint, ss, Key(ByLint, s)) ==> x == s) <==>
      forall x :: x in ss ==> x.code != Some(ID_PREFIX + Decimal(s.id))
  {
    var key := Key(ByLint, s);
    MembersMeans(ByLint, ss, key);
    forall x | x in ss && x.code.None? && Key(ByLint, x) == key
      ensures x == s
    {
      assert (ID_PREFIX + Decimal(x.id))[|ID_PREFIX|..] == Decimal(x.id);
      assert (ID_PREFIX + Decimal(s.id))[|ID_PREFIX|..] == Decimal(s.id);
      DecimalInjective(x.id, s.id);
    }
  }

  /** A lint code that spells out an id key puts its suggestion and the one with that id into one group. */
  lemma CodelessNotAlone()
    ensures var codeless := Suggestion(1, None, "a.rs", 0);
      var odd := Suggestion(2, Some("_id:1"), "a.rs", 0);
      DistinctIds([codeless, odd]) && Members(ByLint, [codeless, odd], Key(ByLint, codeless)) == [codeless, odd]
  {
    var codeless, odd := Suggestion(1, None, "a.rs", 0), Suggestion(2, Some("_id:1"), "a.rs", 0);
    assert Decimal(1) == [Digit(1)] == "1";
    assert Key(ByLint, codeless) == "_id:1" == Key(ByLint, odd);
    assert [codeless, odd][..1] == [codeless] && [codeless][..0] == [];
    assert Members(ByLint, [codeless], "_id:1") == [] + [codeless];
  }

  // ----- who shares a group -----

  /** A group's key is the file of its members, or their lint code, or stands for the id of a codeless one. */
  lemma GroupKeyMeans(mode: GroupMode, ss: seq<Suggestion>, g: Group, m: Suggestion)
    requires g in Grouped(mode, ss)
    ensures m in g.members <==>
      m in ss && g.key == if mode == ByPath then m.file
                          else if m.code.Some? then m.code.value else "_id:" + Decimal(m.id)
  {
    GroupedIsPartition(mode, ss);
    MembersMeans(mode, ss, g.key);
  }

  /**
   * Two suggestions are in one group exactly when they concern the same file, in the path view, and in the
   * lint view when they have the same lint code, or, both without a code, the same id.
   */
  lemma SameGroupIff(mode: GroupMode, ss: seq<Suggestion>, a: Suggestion, b: Suggestion)
    requires a in ss && b in ss && (a.code.Some? <==> b.code.Some?)
    ensures (exists g :: g in Grouped(mode, ss) && a in g.members && b in g.members) <==>
      if mode == ByPath then a.file == b.file else if a.code.Some? then a.code == b.code else a.id == b.id
  {
    var g := Group(Key(mode, a), Members(mode, ss, Key(mode, a)));
    GroupOf(mode, ss, a);
    if h :| h in Grouped(mode, ss) && a in h.members && b in h.members {
      GroupKeyMeans(mode, ss, h, a);
      GroupKeyMeans(mode, ss, h, b);
      SameIdKey(a.id, b.id);
    }
    GroupKeyMeans(mode, ss, g, a);
    GroupKeyMeans(mode, ss, g, b);
    SameIdKey(a.id, b.id);
  }

  lemma SameIdKey(m: nat, n: nat)
    ensures "_id:" + Decimal(m) == "_id:" + Decimal(n) <==> m == n
  {
    if "_id:" + Decimal(m) == "_id:" + Decimal(n) {
      assert ("_id:" + Decimal(m))[4..] == Decimal(m) && ("_id:" + Decimal(n))[4..] == Decimal(n);
      DecimalInjective(m, n);
    }
  }

  // ----- reading a response -----

  function InsertId(id: nat, ids: seq<nat>): seq<nat> {
    if ids == [] || id < ids[0] then [id] + ids
    else if id == ids[0] then ids
    else [ids[0]] + InsertId(id, ids[1..])
  }

  /** `sort_unstable` followed by `dedup`. */
  function SortedDistinct(ids: seq<nat>): seq<nat> {
    if ids == [] then [] else InsertId(ids[0], SortedDistinct(ids[1..]))
  }

  predicate Ascending(ids: seq<nat>) {
    forall i, j :: 0 <= i < j < |ids| ==> ids[i] < ids[j]
  }

  lemma {:induction false} InsertIdMembers(id: nat, ids: seq<nat>, x: nat)
    ensures x in InsertId(id, ids) <==> x == id || x in ids
  {
    if ids != [] && id > ids[0] {
      InsertIdMembers(id, ids[1..], x);
    }
  }

  lemma AscendingFirst(id: nat, ids: seq<nat>)
    requires Ascending(ids) && forall x :: x in ids ==> id < x
    ensures Ascending([id] + ids)
  {
    forall j | 0 <= j < |ids|
      ensures id < ids[j]
    {
      assert ids[j] in ids;
    }
  }

  lemma {:induction false} InsertIdAscending(id: nat, ids: seq<nat>)
    requires Ascending(ids)
    ensures Ascending(InsertId(id, ids))
  {
    if ids != [] && id > ids[0] {
      InsertIdAscending(id, ids[1..]);
      forall x | x in InsertId(id, ids[1..])
        ensures ids[0] < x
      {
        InsertIdMembers(id, ids[1..], x);
      }
      AscendingFirst(ids[0], InsertId(id, ids[1..]));
    } else if ids != [] && id < ids[0] {
      AscendingFirst(id, ids);
    }
  }

  lemma {:induction false} SortedDistinctCorrect(ids: seq<nat>)
    ensures Ascending(SortedDistinct(ids))
    ensures forall x :: x in SortedDistinct(ids) <==> x in ids
  {
    if ids != [] {
      SortedDistinctCorrect(ids[1..]);
      InsertIdAscending(ids[0], SortedDistinct(ids[1..]));
      forall x
        ensures x in SortedDistinct(ids) <==> x in ids
      {
        InsertIdMembers(ids[0], SortedDistinct(ids[1..]), x);
      }
    }
  }

  function Ids(ss: seq<Suggestion>): seq<nat> {
    seq(|ss|, i requires 0 <= i < |ss| => ss[i].id)
  }

  /** The id is picked itself or through its group's header. */
  predicate Picked(mode: GroupMode, ss: seq<Suggestion>, picks: seq<Pick>, id: nat) {
    One(id) in picks || exists s :: s in ss && s.id == id && All(Key(mode, s)) in picks
  }

  /** The view to switch to: that of the first view entry picked. */
  function FirstView(picks: seq<Pick>): Option<GroupMode> {
    if picks == [] then None else if picks[0].View? then Some(picks[0].mode) else FirstView(picks[1..])
  }

  /** The group of a key, as the response's lookup table has it. */
  function Expand(mode: GroupMode, ss: seq<Suggestion>, key: string): seq<nat> {
    Ids(Members(mode, ss, key))
  }

  /** The lookup table from group keys to member ids. */
  method GroupTable(mode: GroupMode, ss: seq<Suggestion>) returns (table: map<string, seq<nat>>)
    ensures forall k :: k in table <==> exists s :: s in ss && Key(mode, s) == k
    ensures forall k :: k in table ==> table[k] == Expand(mode, ss, k)
  {
    var groups := GroupBy(mode, ss);
    GroupedIsPartition(mode, ss);
    table := map g | g in groups :: g.key := Ids(g.members);
    forall k | exists s :: s in ss && Key(mode, s) == k
      ensures k in table
    {
      assert Group(k, Members(mode, ss, k)) in groups;
    }
  }

  /** `parse_grouped_response`. */
  method ParseGroupedResponse(picks: seq<Pick>, ss: seq<Suggestion>, mode: GroupMode) returns (r: Selection)
    ensures FirstView(picks).Some? ==> r == ModeSwitch(FirstView(picks).value)
    ensures FirstView(picks).None? && SkipAll in picks ==> r == Selected([])
    ensures FirstView(picks).None? && SkipAll !in picks ==>
      r.Selected? && Ascending(r.ids) && forall id :: id in r.ids <==> Picked(mode, ss, picks, id)
  {
    for i := 0 to |picks|
      invariant FirstView(picks) == FirstView(picks[i..])
    {
      assert picks[i..][0] == picks[i] && picks[i..][1..] == picks[i + 1..];
      if picks[i].View? {
        return ModeSwitch(picks[i].mode);
      }
    }
    assert picks[|picks|..] == [];
    if SkipAll in picks {
      return Selected([]);
    }
    var table := GroupTable(mode, ss);
    var ids: seq<nat> := [];
    for i := 0 to |picks|
      invariant forall id :: id in ids <==> Picked(mode, ss, picks[..i], id)
    {
      PrefixStep(picks, i);
      match picks[i] {
        case All(key) =>
          MemberIds(mode, ss, key);
          if key in table {
            ids := ids + table[key];
          }
        case One(id) => ids := ids + [id];
        case _ =>
      }
    }
    assert picks[..|picks|] == picks;
    SortedDistinctCorrect(ids);
    r := Selected(SortedDistinct(ids));
  }

  lemma MemberIds(mode: GroupMode, ss: seq<Suggestion>, key: string)
    ensures forall id :: id in Expand(mode, ss, key) <==> exists s :: s in ss && s.id == id && Key(mode, s) == key
  {
    var members := Members(mode, ss, key);
    MembersMeans(mode, ss, key);
    forall id
      ensures id in Expand(mode, ss, key) <==> exists s :: s in ss && s.id == id && Key(mode, s) == key
    {
      if id in Expand(mode, ss, key) {
        var i :| 0 <= i < |members| && members[i].id == id;
        assert members[i] in members;
      }
      if s :| s in ss && s.id == id && Key(mode, s) == key {
        assert s in members;
        var i :| 0 <= i < |members| && members[i] == s;
        assert Ids(members)[i] == id;
      }
    }
  }

  // ----- what is selected in the end -----

  /** `filter_suggestions`. */
  function FilterSuggestions(ss: seq<Suggestion>, ids: seq<nat>): seq<Suggestion> {
    if ss == [] then [] else (if ss[0].id in ids then [ss[0]] else []) + FilterSuggestions(ss[1..], ids)
  }

  /** The suggestions whose own entry or whose group's header is among the picks. */
  function Chosen(mode: GroupMode, ss: seq<Suggestion>, picks: seq<Pick>): seq<Suggestion> {
    if ss == [] then []
    else
      (if One(ss[0].id) in picks || All(Key(mode, ss[0])) in picks then [ss[0]] else [])
      + Chosen(mode, ss[1..], picks)
  }

  lemma {:induction false} FilterAgrees(mode: GroupMode, ss: seq<Suggestion>, picks: seq<Pick>, ids: seq<nat>)
    requires forall s :: s in ss ==> (s.id in ids <==> One(s.id) in picks || All(Key(mode, s)) in picks)
    ensures FilterSuggestions(ss, ids) == Chosen(mode, ss, picks)
  {
    if ss != [] {
      assert ss[0] in ss && forall s :: s in ss[1..] ==> s in ss;
      FilterAgrees(mode, ss[1..], picks, ids);
    }
  }

  lemma {:induction false} FilterEverything(ss: seq<Suggestion>, ids: seq<nat>)
    requires forall s :: s in ss ==> s.id in ids
    ensures FilterSuggestions(ss, ids) == ss
  {
    if ss != [] {
      assert ss[0] in ss && forall s :: s in ss[1..] ==> s in ss;
      FilterEverything(ss[1..], ids);
    }
  }

  /** What a response selects: the suggestions picked by id or by group, in input order. */
  lemma SelectionMeansPicks(mode: GroupMode, ss: seq<Suggestion>, picks: seq<Pick>, ids: seq<nat>)
    requires DistinctIds(ss)
    requires forall id :: id in ids <==> Picked(mode, ss, picks, id)
    ensures FilterSuggestions(ss, ids) == Chosen(mode, ss, picks)
  {
    forall s | s in ss
      ensures s.id in ids <==> One(s.id) in picks || All(Key(mode, s)) in picks
    {
      assert s.id in ids <==> Picked(mode, ss, picks, s.id);
    }
    FilterAgrees(mode, ss, picks, ids);
  }

  const MIN_GROUP_FOR_HEADER := 2

  /** A group is covered by its header or by an entry for each of its members. */
  predicate Covered(picks: seq<Pick>, g: Group) {
    All(g.key) in picks || forall m :: m in g.members ==> One(m.id) in picks
  }

  /** Every header that a form offers for a group is picked, and the entry of each group without one. */
  predicate Ticked(picks: seq<Pick>, g: Group) {
    if |g.members| >= MIN_GROUP_FOR_HEADER then All(g.key) in picks
    else forall m :: m in g.members ==> One(m.id) in picks
  }

  lemma GroupOf(mode: GroupMode, ss: seq<Suggestion>, s: Suggestion)
    requires s in ss
    ensures Group(Key(mode, s), Members(mode, ss, Key(mode, s))) in Grouped(mode, ss)
    ensures s in Members(mode, ss, Key(mode, s))
  {
    GroupedIsPartition(mode, ss);
    MembersMeans(mode, ss, Key(mode, s));
  }

  /**
   * A response selects every suggestion if it covers every group, in the lint view and in the path view
   * alike, and, ids being distinct, only then.
   */
  lemma AllGroupsSelectAll(mode: GroupMode, ss: seq<Suggestion>, picks: seq<Pick>, ids: seq<nat>)
    requires forall id :: id in ids <==> Picked(mode, ss, picks, id)
    ensures (forall g :: g in Grouped(mode, ss) ==> Covered(picks, g)) ==> FilterSuggestions(ss, ids) == ss
    ensures DistinctIds(ss) && FilterSuggestions(ss, ids) == ss ==>
      forall g :: g in Grouped(mode, ss) ==> Covered(picks, g)
  {
    if forall g :: g in Grouped(mode, ss) ==> Covered(picks, g) {
      forall s | s in ss
        ensures s.id in ids
      {
        GroupOf(mode, ss, s);
        assert Picked(mode, ss, picks, s.id);
      }
      FilterEverything(ss, ids);
    }
    if DistinctIds(ss) && FilterSuggestions(ss, ids) == ss {
      forall g | g in Grouped(mode, ss)
        ensures Covered(picks, g)
      {
        CoveredBySelection(mode, ss, picks, ids, g);
      }
    }
  }

  lemma CoveredBySelection(mode: GroupMode, ss: seq<Suggestion>, picks: seq<Pick>, ids: seq<nat>, g: Group)
    requires DistinctIds(ss) && g in Grouped(mode, ss) && FilterSuggestions(ss, ids) == ss
    requires forall id :: id in ids <==> Picked(mode, ss, picks, id)
    ensures Covered(picks, g)
  {
    GroupedAre(mode, ss, g);
    forall m | m in g.members
      ensures One(m.id) in picks || All(g.key) in picks
    {
      MembersMeans(mode, ss, g.key);
      FilteredIds(ss, ids, m);
      PickedSelf(mode, ss, picks, m);
    }
  }

  lemma PickedSelf(mode: GroupMode, ss: seq<Suggestion>, picks: seq<Pick>, m: Suggestion)
    requires DistinctIds(ss) && m in ss && Picked(mode, ss, picks, m.id)
    ensures One(m.id) in picks || All(Key(mode, m)) in picks
  {
    if One(m.id) !in picks {
      var s :| s in ss && s.id == m.id && All(Key(mode, s)) in picks;
      assert s == m;
    }
  }

  lemma GroupedAre(mode: GroupMode, ss: seq<Suggestion>, g: Group)
    requires g in Grouped(mode, ss)
    ensures g.members == Members(mode, ss, g.key)
  {
    GroupedIsPartition(mode, ss);
  }

  lemma {:induction false} FilteredIds(ss: seq<Suggestion>, ids: seq<nat>, s: Suggestion)
    requires s in FilterSuggestions(ss, ids)
    ensures s.id in ids
  {
    if s in FilterSuggestions(ss[1..], ids) {
      FilteredIds(ss[1..], ids, s);
    }
  }

  /** Ticking every header offered, and the entry of each group without one, selects every suggestion. */
  lemma TickingAllSelectsAll(mode: GroupMode, ss: seq<Suggestion>, picks: seq<Pick>, ids: seq<nat>)
    requires forall g :: g in Grouped(mode, ss) ==> Ticked(picks, g)
    requires forall id :: id in ids <==> Picked(mode, ss, picks, id)
    ensures FilterSuggestions(ss, ids) == ss
  {
    AllGroupsSelectAll(mode, ss, picks, ids);
  }
}
