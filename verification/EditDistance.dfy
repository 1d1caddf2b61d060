/** The two-row edit distance and the suggestion built on it (tools.rs, `levenshtein` and `closest_key`). */
module EditDistance {
  import opened Sequences
  import Text

  function Init(s: string): string
    requires s != ""
  {
    s[..|s| - 1]
  }

  function Last(s: string): char
    requires s != ""
  {
    s[|s| - 1]
  }

  /** Edit distance by its recurrence over the last characters. */
  function Distance(a: string, b: string): nat
    decreases |a| + |b|
  {
    if a == "" then |b|
    else if b == "" then |a|
    else
      var cost := if Last(a) != Last(b) then 1 else 0;
      Min(Min(Distance(Init(a), b) + 1, Distance(a, Init(b)) + 1), Distance(Init(a), Init(b)) + cost)
  }

  // ----- edit scripts -----

  datatype Edit = Keep | Replace(c: char) | Insert(c: char) | Delete

  /** `script`, read against both strings from their ends, turns `a` into `b`. */
  ghost predicate Transforms(script: seq<Edit>, a: string, b: string)
    decreases |script|
  {
    if script == [] then a == "" && b == ""
    else
      var rest := script[..|script| - 1];
      match script[|script| - 1]
      case Keep => a != "" && b != "" && Last(a) == Last(b) && Transforms(rest, Init(a), Init(b))
      case Replace(c) => a != "" && b != "" && Last(b) == c && Transforms(rest, Init(a), Init(b))
      case Insert(c) => b != "" && Last(b) == c && Transforms(rest, a, Init(b))
      case Delete => a != "" && Transforms(rest, Init(a), b)
  }

  /** Keeping a character is free; every other edit costs one. */
  function Cost(script: seq<Edit>): nat {
    if script == [] then 0
    else Cost(script[..|script| - 1]) + if script[|script| - 1].Keep? then 0 else 1
  }

  lemma Append(script: seq<Edit>, e: Edit)
    ensures (script + [e])[..|script|] == script
    ensures Cost(script + [e]) == Cost(script) + if e.Keep? then 0 else 1
  {
    assert (script + [e])[..|script|] == script;
  }

  /** A cheapest script, following the recurrence. */
  function BestScript(a: string, b: string): seq<Edit>
    decreases |a| + |b|
  {
    if a == "" && b == "" then []
    else if a == "" then BestScript(a, Init(b)) + [Insert(Last(b))]
    else if b == "" then BestScript(Init(a), b) + [Delete]
    else if Distance(a, b) == Distance(Init(a), b) + 1 then BestScript(Init(a), b) + [Delete]
    else if Distance(a, b) == Distance(a, Init(b)) + 1 then BestScript(a, Init(b)) + [Insert(Last(b))]
    else BestScript(Init(a), Init(b)) + [if Last(a) == Last(b) then Keep else Replace(Last(b))]
  }

  lemma {:induction false} BestScriptCorrect(a: string, b: string)
    ensures Transforms(BestScript(a, b), a, b)
    ensures Cost(BestScript(a, b)) == Distance(a, b)
    decreases |a| + |b|
  {
    if a == "" && b == "" {
    } else if b == "" || (a != "" && Distance(a, b) == Distance(Init(a), b) + 1) {
      BestScriptCorrect(Init(a), b);
      Append(BestScript(Init(a), b), Delete);
    } else if a == "" || Distance(a, b) == Distance(a, Init(b)) + 1 {
      BestScriptCorrect(a, Init(b));
      Append(BestScript(a, Init(b)), Insert(Last(b)));
    } else {
      BestScriptCorrect(Init(a), Init(b));
      Append(BestScript(Init(a), Init(b)), if Last(a) == Last(b) then Keep else Replace(Last(b)));
    }
  }

  lemma {:induction false} NoCheaperScript(script: seq<Edit>, a: string, b: string)
    requires Transforms(script, a, b)
    ensures Cost(script) >= Distance(a, b)
    decreases |script|
  {
    if script != [] {
      var rest := script[..|script| - 1];
      match script[|script| - 1] {
        case Keep => NoCheaperScript(rest, Init(a), Init(b));
        case Replace(c) => NoCheaperScript(rest, Init(a), Init(b));
        case Insert(c) => NoCheaperScript(rest, a, Init(b));
        case Delete => NoCheaperScript(rest, Init(a), b);
      }
    }
  }

  /** The recurrence computes the cost of a cheapest insert / delete / substitute script. */
  lemma DistanceIsCheapest(a: string, b: string)
    ensures exists script :: Transforms(script, a, b) && Cost(script) == Distance(a, b)
    ensures forall script :: Transforms(script, a, b) ==> Cost(script) >= Distance(a, b)
  {
    BestScriptCorrect(a, b);
    forall script | Transforms(script, a, b)
      ensures Cost(script) >= Distance(a, b)
    {
      NoCheaperScript(script, a, b);
    }
  }

  // ----- a metric -----

  lemma {:induction false} DistanceSymmetric(a: string, b: string)
    ensures Distance(a, b) == Distance(b, a)
    decreases |a| + |b|
  {
    if a != "" && b != "" {
      DistanceSymmetric(Init(a), b);
      DistanceSymmetric(a, Init(b));
      DistanceSymmetric(Init(a), Init(b));
    }
  }

  lemma {:induction false} DistanceZero(a: string, b: string)
    ensures Distance(a, b) == 0 <==> a == b
    decreases |a| + |b|
  {
    if a != "" && b != "" {
      DistanceZero(Init(a), Init(b));
      assert a == Init(a) + [Last(a)] && b == Init(b) + [Last(b)];
    }
  }

  /** One script for two scripts in succession. */
  function Compose(s: seq<Edit>, t: seq<Edit>): seq<Edit>
    decreases |s| + |t|
  {
    if s != [] && s[|s| - 1].Delete? then Compose(s[..|s| - 1], t) + [Delete]
    else if t != [] && t[|t| - 1].Insert? then Compose(s, t[..|t| - 1]) + [t[|t| - 1]]
    else if s == [] || t == [] then []
    else
      var rest := Compose(s[..|s| - 1], t[..|t| - 1]);
      match (s[|s| - 1], t[|t| - 1])
      case (Insert(_), Delete) => rest
      case (Insert(c), Keep) => rest + [Insert(c)]
      case (Insert(_), Replace(c)) => rest + [Insert(c)]
      case (Keep, e) => rest + [e]
      case (Replace(c), Keep) => rest + [Replace(c)]
      case (_, e) => rest + [e]
  }

  lemma {:induction false} ComposeCorrect(s: seq<Edit>, t: seq<Edit>, a: string, b: string, c: string)
    requires Transforms(s, a, b) && Transforms(t, b, c)
    ensures Transforms(Compose(s, t), a, c)
    ensures Cost(Compose(s, t)) <= Cost(s) + Cost(t)
    decreases |s| + |t|
  {
    if s != [] && s[|s| - 1].Delete? {
      ComposeCorrect(s[..|s| - 1], t, Init(a), b, c);
      Append(Compose(s[..|s| - 1], t), Delete);
    } else if t != [] && t[|t| - 1].Insert? {
      ComposeCorrect(s, t[..|t| - 1], a, b, Init(c));
      Append(Compose(s, t[..|t| - 1]), t[|t| - 1]);
    } else if s != [] && t != [] {
      var rest := Compose(s[..|s| - 1], t[..|t| - 1]);
      var a' := if s[|s| - 1].Insert? then a else Init(a);
      var c' := if t[|t| - 1].Delete? then c else Init(c);
      ComposeCorrect(s[..|s| - 1], t[..|t| - 1], a', Init(b), c');
      if |Compose(s, t)| > |rest| {
        Append(rest, Compose(s, t)[|rest|]);
      }
    }
  }

  lemma {:induction false} DistanceTriangle(a: string, b: string, c: string)
    ensures Distance(a, c) <= Distance(a, b) + Distance(b, c)
  {
    BestScriptCorrect(a, b);
    BestScriptCorrect(b, c);
    ComposeCorrect(BestScript(a, b), BestScript(b, c), a, b, c);
    NoCheaperScript(Compose(BestScript(a, b), BestScript(b, c)), a, c);
  }

  // ----- the two-row computation -----

  /** Distance between the first `i` characters of `a` and the first `j` of `b`. */
  function Cell(a: string, b: string, i: nat, j: nat): nat
    requires i <= |a| && j <= |b|
  {
    Distance(a[..i], b[..j])
  }

  lemma CellStep(a: string, b: string, i: nat, j: nat)
    requires i < |a| && j < |b|
    ensures Cell(a, b, i + 1, j + 1) ==
      Min(Min(Cell(a, b, i, j + 1) + 1, Cell(a, b, i + 1, j) + 1), Cell(a, b, i, j) + if a[i] != b[j] then 1 else 0)
  {
    assert Init(a[..i + 1]) == a[..i] && Last(a[..i + 1]) == a[i];
    assert Init(b[..j + 1]) == b[..j] && Last(b[..j + 1]) == b[j];
  }

  lemma CellEdges(a: string, b: string, i: nat, j: nat)
    requires i <= |a| && j <= |b|
    ensures Cell(a, b, i, 0) == i && Cell(a, b, 0, j) == j
    ensures Cell(a, b, |a|, |b|) == Distance(a, b)
  {
    assert a[..|a|] == a && b[..|b|] == b;
  }

  /** `levenshtein`: two rows, filled in place and swapped. */
  method Levenshtein(a: string, b: string) returns (d: nat)
    ensures d == Distance(a, b)
  {
    if a == "" {
      return |b|;
    }
    if b == "" {
      return |a|;
    }
    var prev := new nat[|b| + 1](j => j);
    var cur := new nat[|b| + 1](_ => 0);
    forall j | 0 <= j <= |b|
      ensures Cell(a, b, 0, j) == j
    {
      CellEdges(a, b, 0, j);
    }
    for i := 0 to |a|
      invariant prev != cur && prev.Length == cur.Length == |b| + 1 && fresh(prev) && fresh(cur)
      invariant forall k :: 0 <= k <= |b| ==> prev[k] == Cell(a, b, i, k)
    {
      cur[0] := i + 1;
      CellEdges(a, b, i + 1, 0);
      for j := 0 to |b|
        invariant forall k :: 0 <= k <= |b| ==> prev[k] == Cell(a, b, i, k)
        invariant forall k :: 0 <= k <= j ==> cur[k] == Cell(a, b, i + 1, k)
      {
        var cost := if a[i] != b[j] then 1 else 0;
        CellStep(a, b, i, j);
        cur[j + 1] := Min(Min(prev[j + 1] + 1, cur[j] + 1), prev[j] + cost);
      }
      prev, cur := cur, prev;
    }
    CellEdges(a, b, 0, 0);
    d := prev[|b|];
  }

  // ----- suggestions -----

  /** Distance between a typed key and a candidate, ignoring ASCII case. */
  function KeyDistance(key: string, candidate: string): nat {
    Distance(Text.AsciiLowercase(key), Text.AsciiLowercase(candidate))
  }

  /** At most three edits, and never more than half the typed key's bytes. */
  function Threshold(key: string): nat {
    Min(3, Max(Text.ByteLength(key) / 2, 1))
  }

  /**
   * `closest_key`: an allowed key at the least distance, if that is within the threshold, in whatever
   * order the hash set yields its keys.
   */
  method ClosestKey(key: string, allowed: set<string>) returns (r: Option<string>)
    ensures r.Some? ==>
      && r.value in allowed
      && KeyDistance(key, r.value) <= Threshold(key)
      && forall k :: k in allowed ==> KeyDistance(key, r.value) <= KeyDistance(key, k)
    ensures r.None? <==> forall k :: k in allowed ==> KeyDistance(key, k) > Threshold(key)
  {
    var lower := Text.AsciiLowercase(key);
    var best: Option<(nat, string)> := None;
    var pending := allowed;
    while pending != {}
      invariant pending <= allowed
      invariant best.None? ==> pending == allowed
      invariant best.Some? ==> best.value.1 in allowed && best.value.0 == KeyDistance(key, best.value.1)
      invariant best.Some? ==> forall k :: k in allowed - pending ==> best.value.0 <= KeyDistance(key, k)
    {
      var candidate :| candidate in pending;
      pending := pending - {candidate};
      var d := Levenshtein(lower, Text.AsciiLowercase(candidate));
      if best.None? || d < best.value.0 {
        best := Some((d, candidate));
      }
    }
    if best.None? {
      return None;
    }
    var (d, c) := best.value;
    var threshold := Threshold(key);
    r := if d <= threshold then Some(c) else None;
  }

  /** One edit is tolerated in a key of up to three bytes, two up to five, three in a longer one. */
  lemma ThresholdMeans(key: string)
    ensures var n := Text.ByteLength(key);
      Threshold(key) == if n < 4 then 1 else if n < 6 then 2 else 3
  {
  }

  /** A candidate that differs from the key in the case of letters only is at distance zero, and no other is. */
  lemma KeyDistanceZero(key: string, candidate: string)
    ensures KeyDistance(key, candidate) == 0 <==>
      |key| == |candidate| && forall i :: 0 <= i < |key| ==>
        || key[i] == candidate[i]
        || (0x41 <= key[i] as int <= 0x5a && candidate[i] as int == key[i] as int + 0x20)
        || (0x41 <= candidate[i] as int <= 0x5a && key[i] as int == candidate[i] as int + 0x20)
  {
    DistanceZero(Text.AsciiLowercase(key), Text.AsciiLowercase(candidate));
    Text.FoldAlikeIff(key, candidate);
  }
}
