/** Packing test names into launches that stay under the argv budget (bisect.rs, `chunk_names`). */
module Chunking {
  import opened Sequences
  import Text

  const ARG_BYTE_BUDGET := 24_000

  function Cost(name: string): nat {
    Text.ByteLength(name) + 1
  }

  function TotalCost(names: seq<string>): nat {
    if names == [] then 0 else TotalCost(names[..|names| - 1]) + Cost(names[|names| - 1])
  }

  /** A launch is acceptable when it fits the budget, or when it holds one name that alone does not. */
  predicate Fits(chunk: seq<string>) {
    TotalCost(chunk) <= ARG_BYTE_BUDGET || |chunk| == 1
  }

  /** A division of `names` into consecutive acceptable launches. */
  ghost predicate Packing(p: seq<seq<string>>, names: seq<string>) {
    Flatten(p) == names && forall i :: 0 <= i < |p| ==> Fits(p[i])
  }

  /** The launches still to be emitted when `cur` is open and `rest` has not been looked at. */
  function Pack(cur: seq<string>, rest: seq<string>): seq<seq<string>>
    decreases |rest|
  {
    if rest == [] then if cur == [] then [] else [cur]
    else if cur != [] && TotalCost(cur) + Cost(rest[0]) > ARG_BYTE_BUDGET then
      [cur] + Pack([rest[0]], rest[1..])
    else Pack(cur + [rest[0]], rest[1..])
  }

  /** The launches for a group; an empty group still gets one, empty, launch. */
  function Chunks(names: seq<string>): seq<seq<string>> {
    if names == [] then [[]] else Pack([], names)
  }

  lemma TotalCostPush(names: seq<string>, n: string)
    ensures TotalCost(names + [n]) == TotalCost(names) + Cost(n)
  {
    assert (names + [n])[..|names|] == names;
  }

  lemma {:induction false} TotalCostConcat(a: seq<string>, b: seq<string>)
    ensures TotalCost(a + b) == TotalCost(a) + TotalCost(b)
    decreases |b|
  {
    if b == [] {
      assert a + b == a;
    } else {
      var front := b[..|b| - 1];
      assert a + b == (a + front) + [b[|b| - 1]];
      TotalCostPush(a + front, b[|b| - 1]);
      TotalCostConcat(a, front);
    }
  }

  lemma {:induction false} PackIsPacking(cur: seq<string>, rest: seq<string>)
    requires cur == [] || Fits(cur)
    ensures Packing(Pack(cur, rest), cur + rest)
    ensures forall i :: 0 <= i < |Pack(cur, rest)| ==> Pack(cur, rest)[i] != []
    ensures cur + rest != [] ==> Pack(cur, rest) != []
    decreases |rest|
  {
    if rest == [] {
      assert cur + rest == cur;
      FlattenSingleton(cur);
    } else {
      TotalCostPush(cur, rest[0]);
      assert cur + rest == (cur + [rest[0]]) + rest[1..];
      if cur != [] && TotalCost(cur) + Cost(rest[0]) > ARG_BYTE_BUDGET {
        PackIsPacking([rest[0]], rest[1..]);
        assert [rest[0]] + rest[1..] == rest;
      } else {
        PackIsPacking(cur + [rest[0]], rest[1..]);
      }
    }
  }

  /**
   * Greedy stays ahead: when the open launch `cur` is a suffix of `x`, no acceptable packing of
   * everything from `x` on uses fewer launches than greedy uses from `cur` on.
   */
  lemma {:induction false} PackStaysAhead(cur: seq<string>, rest: seq<string>, x: seq<string>, p: seq<seq<string>>)
    requires |cur| <= |x| && x[|x| - |cur|..] == cur
    requires Packing(p, x + rest)
    ensures |Pack(cur, rest)| <= |p|
    decreases |rest|, |p|
  {
    if rest == [] {
    } else if cur != [] && TotalCost(cur) + Cost(rest[0]) > ARG_BYTE_BUDGET {
      var first := p[0];
      assert x + rest == first + Flatten(p[1..]);
      if |first| <= |x| {
        assert first == (x + rest)[..|first|] == x[..|first|];
        var x' := x[|first|..];
        assert Flatten(p[1..]) == (x + rest)[|first|..] == x' + rest;
        if |cur| <= |x'| {
          PackStaysAhead(cur, rest, x', p[1..]);
        } else {
          assert x' + rest == (x' + [rest[0]]) + rest[1..];
          PackStaysAhead([rest[0]], rest[1..], x' + [rest[0]], p[1..]);
        }
      } else {
        assert first == (x + rest)[..|first|];
        assert x == x[..|x| - |cur|] + cur;
        assert first == x[..|x| - |cur|] + cur + [rest[0]] + first[|x| + 1..];
        OverfullPrefix(cur, rest[0], x[..|x| - |cur|], first[|x| + 1..]);
        assert false;
      }
    } else {
      assert x + rest == (x + [rest[0]]) + rest[1..];
      PackStaysAhead(cur + [rest[0]], rest[1..], x + [rest[0]], p);
    }
  }

  lemma OverfullPrefix(cur: seq<string>, n: string, before: seq<string>, after: seq<string>)
    requires cur != [] && TotalCost(cur) + Cost(n) > ARG_BYTE_BUDGET
    ensures !Fits(before + cur + [n] + after)
  {
    TotalCostConcat(before + cur + [n], after);
    TotalCostConcat(before + cur, [n]);
    TotalCostConcat(before, cur);
    TotalCostPush([], n);
    assert [] + [n] == [n];
  }

  /** `chunk_names`: an acceptable packing, without empty launches, that no other packing beats. */
  method ChunkNames(names: seq<string>) returns (chunks: seq<seq<string>>)
    ensures chunks == Chunks(names)
    ensures Packing(chunks, names)
    ensures chunks != []
    ensures names == [] ==> chunks == [[]]
    ensures names != [] ==> forall i :: 0 <= i < |chunks| ==> chunks[i] != []
    ensures names != [] ==> forall p :: Packing(p, names) ==> |chunks| <= |p|
  {
    chunks := [];
    var cur: seq<string> := [];
    var bytes := 0;
    for i := 0 to |names|
      invariant bytes == TotalCost(cur)
      invariant chunks + Pack(cur, names[i..]) == Pack([], names)
      invariant i > 0 ==> cur != []
    {
      var n := names[i];
      var cost := Cost(n);
      assert names[i..][0] == n && names[i..][1..] == names[i + 1..];
      TotalCostPush(cur, n);
      if cur != [] && bytes + cost > ARG_BYTE_BUDGET {
        TotalCostPush([], n);
        assert [] + [n] == [n];
        chunks := chunks + [cur];
        cur := [];
        bytes := 0;
      }
      cur := cur + [n];
      bytes := bytes + cost;
    }
    assert names[|names|..] == [];
    if cur != [] {
      chunks := chunks + [cur];
    }
    if chunks == [] {
      chunks := chunks + [[]];
    }
    ChunksOptimal(names);
  }

  lemma ChunksOptimal(names: seq<string>)
    ensures Packing(Chunks(names), names)
    ensures names != [] ==> forall i :: 0 <= i < |Chunks(names)| ==> Chunks(names)[i] != []
    ensures names != [] ==> forall p :: Packing(p, names) ==> |Chunks(names)| <= |p|
  {
    if names == [] {
      FlattenSingleton<string>([]);
    } else {
      PackIsPacking([], names);
      assert [] + names == names;
      forall p | Packing(p, names)
        ensures |Chunks(names)| <= |p|
      {
        PackStaysAhead([], names, [], p);
      }
    }
  }

  /** The bytes that the names of a launch take on the command line, each with a separator. */
  function ArgBytes(names: seq<string>): nat {
    if names == [] then 0 else Text.ByteLength(names[0]) + 1 + ArgBytes(names[1..])
  }

  lemma {:induction false} ArgBytesIsTotal(names: seq<string>)
    ensures ArgBytes(names) == TotalCost(names)
  {
    if names != [] {
      ArgBytesIsTotal(names[1..]);
      assert names == [names[0]] + names[1..];
      TotalCostConcat([names[0]], names[1..]);
      TotalCostPush([], names[0]);
      assert [] + [names[0]] == [names[0]];
    }
  }

  /** A launch is acceptable exactly when it takes at most 24 000 bytes or has a single name. */
  lemma FitsMeans(names: seq<string>)
    ensures Fits(names) <==> ArgBytes(names) <= 24_000 || |names| == 1
  {
    ArgBytesIsTotal(names);
  }
}
