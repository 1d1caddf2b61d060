/** Removing terminal control sequences (tools.rs, `strip_ansi`; ECMA-48, section 5.4). */
module Ansi {
  import opened Sequences

  const ESC := '\U{1b}'

  predicate IsFinal(c: char) {
    '\U{40}' <= c <= '\U{7e}'
  }

  /** A control sequence introducer stands at the front. */
  predicate Introduced(s: string) {
    |s| >= 2 && s[0] == ESC && s[1] == '['
  }

  /** What follows the first final byte; nothing when there is none. */
  function AfterFinal(s: string): (r: string)
    ensures |r| <= |s|
  {
    if s == "" then "" else if IsFinal(s[0]) then s[1..] else AfterFinal(s[1..])
  }

  function Strip(s: string): string
    decreases |s|
  {
    if s == "" then ""
    else if Introduced(s) then Strip(AfterFinal(s[2..]))
    else [s[0]] + Strip(s[1..])
  }

  /** The inner loop of `strip_ansi`: up to and including the command byte. */
  method ConsumeSequence(s: string, start: nat) returns (i: nat)
    requires start <= |s|
    ensures start <= i <= |s| && s[i..] == AfterFinal(s[start..])
  {
    i := start;
    while i < |s|
      invariant start <= i <= |s|
      invariant AfterFinal(s[start..]) == AfterFinal(s[i..])
    {
      assert s[i..][1..] == s[i + 1..];
      i := i + 1;
      if IsFinal(s[i - 1]) {
        return;
      }
    }
  }

  /** `strip_ansi`: one pass with one character of lookahead. */
  method StripAnsi(s: string) returns (out: string)
    ensures out == Strip(s)
  {
    out := "";
    var i := 0;
    while i < |s|
      invariant i <= |s|
      invariant out + Strip(s[i..]) == Strip(s)
    {
      var c := s[i];
      assert s[i..][1..] == s[i + 1..];
      if c == ESC && i + 1 < |s| && s[i + 1] == '[' {
        assert s[i..][2..] == s[i + 2..];
        i := ConsumeSequence(s, i + 2);
      } else {
        out := out + [c];
        i := i + 1;
      }
    }
    assert s[i..] == "";
  }

  /** Stripping only deletes. */
  lemma {:induction false} StripDeletes(s: string)
    ensures Subsequence(Strip(s), s)
    decreases |s|
  {
    if s != "" {
      if Introduced(s) {
        var rest := AfterFinal(s[2..]);
        AfterFinalSuffix(s[2..]);
        StripDeletes(rest);
        var gone := s[..|s| - |rest|];
        SubsequenceEmpty(gone);
        SubsequenceConcat([], gone, Strip(rest), rest);
        assert [] + Strip(rest) == Strip(rest) && gone + rest == s;
      } else {
        StripDeletes(s[1..]);
        assert Strip(s)[1..] == Strip(s[1..]);
      }
    }
  }

  lemma {:induction false} AfterFinalSuffix(s: string)
    ensures AfterFinal(s) == s[|s| - |AfterFinal(s)|..]
  {
    if s != "" && !IsFinal(s[0]) {
      AfterFinalSuffix(s[1..]);
    }
  }

  // ----- decorated text -----

  /** A character of the text, or a control sequence inserted into it. */
  datatype Piece = Char(c: char) | Csi(parameters: string, intermediates: string, final: char)

  predicate WellFormed(p: Piece) {
    p.Csi? ==>
      && (forall c :: c in p.parameters ==> '\U{30}' <= c <= '\U{3f}')
      && (forall c :: c in p.intermediates ==> '\U{20}' <= c <= '\U{2f}')
      && IsFinal(p.final)
  }

  function Body(p: Piece): string
    requires p.Csi?
  {
    p.parameters + p.intermediates + [p.final]
  }

  function Shown(p: Piece): string {
    if p.Char? then [p.c] else [ESC, '['] + Body(p)
  }

  function Kept(p: Piece): string {
    if p.Char? then [p.c] else ""
  }

  function Render(ps: seq<Piece>): string {
    if ps == [] then "" else Shown(ps[0]) + Render(ps[1..])
  }

  function TextOf(ps: seq<Piece>): string {
    if ps == [] then "" else Kept(ps[0]) + TextOf(ps[1..])
  }

  /** The text itself has ESC and `[` side by side, with nothing inserted between them. */
  predicate Splice(ps: seq<Piece>) {
    |ps| >= 2 && ((ps[0] == Char(ESC) && ps[1] == Char('[')) || Splice(ps[1..]))
  }

  lemma {:induction false} AfterBody(pre: string, f: char, rest: string)
    requires (forall c :: c in pre ==> !IsFinal(c)) && IsFinal(f)
    ensures AfterFinal(pre + [f] + rest) == rest
  {
    if pre == "" {
      assert (pre + [f] + rest)[1..] == rest;
    } else {
      assert (pre + [f] + rest)[1..] == pre[1..] + [f] + rest;
      assert pre[0] in pre && forall c :: c in pre[1..] ==> c in pre;
      AfterBody(pre[1..], f, rest);
    }
  }

  lemma RenderCsi(ps: seq<Piece>)
    requires ps != [] && ps[0].Csi?
    ensures Introduced(Render(ps))
    ensures Render(ps)[1..] == ['['] + (Body(ps[0]) + Render(ps[1..]))
    ensures Render(ps)[2..] == Body(ps[0]) + Render(ps[1..])
    ensures TextOf(ps) == TextOf(ps[1..])
  {
    var rest := Body(ps[0]) + Render(ps[1..]);
    assert Render(ps) == [ESC, '['] + rest;
    assert TextOf(ps) == "" + TextOf(ps[1..]);
  }

  lemma StripCsi(ps: seq<Piece>)
    requires ps != [] && ps[0].Csi? && WellFormed(ps[0])
    ensures Strip(Render(ps)) == Strip(Render(ps[1..]))
  {
    var pre := ps[0].parameters + ps[0].intermediates;
    RenderCsi(ps);
    AfterBody(pre, ps[0].final, Render(ps[1..]));
  }

  /** A character that does not open a sequence survives. */
  lemma StripChar(ps: seq<Piece>)
    requires ps != [] && ps[0].Char?
    requires !(|ps| >= 2 && ps[0] == Char(ESC) && ps[1] == Char('['))
    ensures Strip(Render(ps)) == [ps[0].c] + Strip(Render(ps[1..]))
  {
    assert Render(ps)[1..] == Render(ps[1..]);
    if |ps| >= 2 && ps[1].Csi? {
      assert Render(ps[1..])[0] == ESC;
    }
  }

  lemma {:induction false} StripUndecorates(ps: seq<Piece>)
    requires forall p :: p in ps ==> WellFormed(p)
    requires !Splice(ps)
    ensures Strip(Render(ps)) == TextOf(ps)
  {
    if ps != [] {
      assert ps[0] in ps && forall p :: p in ps[1..] ==> p in ps;
      StripUndecorates(ps[1..]);
      TextFirst(ps);
      if ps[0].Csi? {
        StripCsi(ps);
      } else {
        StripChar(ps);
      }
    }
  }

  lemma TextFirst(ps: seq<Piece>)
    requires ps != []
    ensures TextOf(ps) == if ps[0].Char? then [ps[0].c] + TextOf(ps[1..]) else TextOf(ps[1..])
  {
  }

  // ----- the converse: a spliced introducer always costs the text an ESC -----

  function Escapes(s: string): nat {
    if s == "" then 0 else (if s[0] == ESC then 1 else 0) + Escapes(s[1..])
  }

  function Chars(s: string): seq<Piece> {
    seq(|s|, i requires 0 <= i < |s| => Char(s[i]))
  }

  lemma {:induction false} RenderConcat(a: seq<Piece>, b: seq<Piece>)
    ensures Render(a + b) == Render(a) + Render(b) && TextOf(a + b) == TextOf(a) + TextOf(b)
  {
    if a == [] {
      assert a + b == b;
    } else {
      assert (a + b)[0] == a[0] && (a + b)[1..] == a[1..] + b;
      RenderConcat(a[1..], b);
      Associate(Shown(a[0]), Render(a[1..]), Render(b));
      Associate(Kept(a[0]), TextOf(a[1..]), TextOf(b));
    }
  }

  lemma {:induction false} RenderChars(s: string)
    ensures Render(Chars(s)) == s && TextOf(Chars(s)) == s
  {
    if s != "" {
      assert Chars(s)[1..] == Chars(s[1..]);
      RenderChars(s[1..]);
    }
  }

  lemma {:induction false} EscapesConcat(a: string, b: string)
    ensures Escapes(a + b) == Escapes(a) + Escapes(b)
  {
    if a == "" {
      assert a + b == b;
    } else {
      assert (a + b)[0] == a[0] && (a + b)[1..] == a[1..] + b;
      EscapesConcat(a[1..], b);
    }
  }

  /** The pieces left when a scan for a final byte starts in front of `ps`. */
  function Resume(ps: seq<Piece>): seq<Piece> {
    if ps == [] then []
    else if ps[0].Csi? then Chars(Body(ps[0])) + ps[1..]
    else if IsFinal(ps[0].c) then ps[1..]
    else Resume(ps[1..])
  }

  lemma {:induction false} NoEscapes(s: string)
    requires forall c :: c in s ==> c != ESC
    ensures Escapes(s) == 0
  {
    if s != "" {
      assert s[0] in s && forall c :: c in s[1..] ==> c in s;
      NoEscapes(s[1..]);
    }
  }

  /** A scan that runs into a control sequence stops at its `[`. */
  lemma BracketIsFinal(s: string)
    requires Introduced(s)
    ensures AfterFinal(s) == s[2..]
  {
    assert AfterFinal(s) == AfterFinal(s[1..]) && s[1..][0] == '[';
    assert s[1..][1..] == s[2..];
  }

  lemma BodyPlain(p: Piece)
    requires p.Csi? && WellFormed(p)
    ensures Escapes(Body(p)) == 0
  {
    NoEscapes(p.parameters);
    NoEscapes(p.intermediates);
    NoEscapes([p.final]);
    EscapesConcat(p.parameters, p.intermediates);
    EscapesConcat(p.parameters + p.intermediates, [p.final]);
  }

  lemma ResumeInsideCsi(ps: seq<Piece>)
    requires ps != [] && ps[0].Csi? && WellFormed(ps[0])
    ensures AfterFinal(Render(ps)) == Render(Resume(ps))
    ensures Escapes(TextOf(Resume(ps))) == Escapes(TextOf(ps))
  {
    var body := Body(ps[0]);
    RenderCsi(ps);
    BracketIsFinal(Render(ps));
    RenderConcat(Chars(body), ps[1..]);
    RenderChars(body);
    BodyPlain(ps[0]);
    EscapesConcat(body, TextOf(ps[1..]));
  }

  lemma {:induction false} ResumeCorrect(ps: seq<Piece>)
    requires forall p :: p in ps ==> WellFormed(p)
    ensures AfterFinal(Render(ps)) == Render(Resume(ps))
    ensures Escapes(TextOf(Resume(ps))) <= Escapes(TextOf(ps))
    ensures forall p :: p in Resume(ps) ==> WellFormed(p)
  {
    if ps != [] {
      assert ps[0] in ps && forall p :: p in ps[1..] ==> p in ps;
      if ps[0].Csi? {
        ResumeInsideCsi(ps);
      } else {
        assert Render(ps) == [ps[0].c] + Render(ps[1..]) && TextOf(ps) == [ps[0].c] + TextOf(ps[1..]);
        ResumeCorrect(ps[1..]);
      }
    }
  }

  /** A spliced introducer at the front swallows its ESC and whatever the scan for a final byte passes. */
  lemma SplicedFront(ps: seq<Piece>)
    requires |ps| >= 2 && ps[0] == Char(ESC) && ps[1] == Char('[')
    ensures Introduced(Render(ps)) && Render(ps)[2..] == Render(ps[2..])
    ensures Escapes(TextOf(ps)) == 1 + Escapes(TextOf(ps[2..]))
  {
    var tail := ps[1..];
    assert tail[1..] == ps[2..] && tail[0] == ps[1];
    CharFront(ps);
    CharFront(tail);
    TwoInFront(ESC, '[', Render(ps[2..]));
  }

  lemma TwoInFront(c: char, d: char, rest: string)
    ensures var s := [c] + ([d] + rest); |s| >= 2 && s[0] == c && s[1] == d && s[2..] == rest
  {
  }

  lemma CharFront(ps: seq<Piece>)
    requires ps != [] && ps[0].Char?
    ensures Render(ps) == [ps[0].c] + Render(ps[1..])
    ensures Escapes(TextOf(ps)) == (if ps[0].c == ESC then 1 else 0) + Escapes(TextOf(ps[1..]))
  {
    assert TextOf(ps) == [ps[0].c] + TextOf(ps[1..]);
    EscapesConcat([ps[0].c], TextOf(ps[1..]));
    assert [ps[0].c][1..] == [];
  }

  lemma {:induction false} StripEscapes(ps: seq<Piece>)
    requires forall p :: p in ps ==> WellFormed(p)
    ensures Escapes(Strip(Render(ps))) <= Escapes(TextOf(ps))
    ensures Splice(ps) ==> Escapes(Strip(Render(ps))) < Escapes(TextOf(ps))
    decreases |Render(ps)|
  {
    if ps != [] {
      assert ps[0] in ps && forall p :: p in ps[1..] ==> p in ps;
      if ps[0].Csi? {
        RenderCsi(ps);
        StripCsi(ps);
        StripEscapes(ps[1..]);
      } else if |ps| >= 2 && ps[0] == Char(ESC) && ps[1] == Char('[') {
        SplicedFront(ps);
        ResumeCorrect(ps[2..]);
        StripEscapes(Resume(ps[2..]));
      } else {
        StripChar(ps);
        StripEscapes(ps[1..]);
        EscapesConcat([ps[0].c], Strip(Render(ps[1..])));
        EscapesConcat([ps[0].c], TextOf(ps[1..]));
      }
    }
  }

  /**
   * Stripping undoes decoration: text with control sequences inserted anywhere comes back unchanged,
   * unless the text has an ESC directly followed by `[`, and then never.
   */
  lemma StripInvertsDecoration(ps: seq<Piece>)
    requires forall p :: p in ps ==> WellFormed(p)
    ensures Strip(Render(ps)) == TextOf(ps) <==> !Splice(ps)
  {
    if Splice(ps) {
      StripEscapes(ps);
    } else {
      StripUndecorates(ps);
    }
  }

  // ----- when a second pass changes nothing -----

  /** ESC and `[` stand side by side somewhere. */
  predicate HasIntroducer(s: string) {
    s != "" && (Introduced(s) || HasIntroducer(s[1..]))
  }

  lemma {:induction false} SpliceOfChars(s: string)
    ensures Splice(Chars(s)) <==> HasIntroducer(s)
  {
    if s != "" {
      assert Chars(s)[1..] == Chars(s[1..]);
      SpliceOfChars(s[1..]);
    }
  }

  lemma StripFixpoint(s: string)
    ensures Strip(s) == s <==> !HasIntroducer(s)
  {
    RenderChars(s);
    SpliceOfChars(s);
    StripInvertsDecoration(Chars(s));
  }

  /** `s` without the control sequences at its front. */
  function Undressed(s: string): string
    decreases |s|
  {
    if Introduced(s) then Undressed(AfterFinal(s[2..])) else s
  }

  /** Somewhere a surviving ESC is separated from a surviving `[` by control sequences only. */
  predicate Exposes(s: string)
    decreases |s|
  {
    if s == "" then false
    else if Introduced(s) then Exposes(AfterFinal(s[2..]))
    else (s[0] == ESC && var next := Undressed(s[1..]); next != "" && next[0] == '[') || Exposes(s[1..])
  }

  lemma {:induction false} StripOfUndressed(s: string)
    ensures Strip(s) == Strip(Undressed(s))
    ensures Undressed(s) != "" ==> Strip(s) != "" && Strip(s)[0] == Undressed(s)[0]
    ensures Undressed(s) == "" ==> Strip(s) == ""
    decreases |s|
  {
    if Introduced(s) {
      StripOfUndressed(AfterFinal(s[2..]));
    }
  }

  lemma {:induction false} ExposesIntroducer(s: string)
    ensures HasIntroducer(Strip(s)) <==> Exposes(s)
    decreases |s|
  {
    if s != "" {
      if Introduced(s) {
        ExposesIntroducer(AfterFinal(s[2..]));
      } else {
        ExposesIntroducer(s[1..]);
        StripOfUndressed(s[1..]);
        assert Strip(s)[1..] == Strip(s[1..]);
      }
    }
  }

  /** A second pass is idle exactly when the input hides no introducer behind control sequences. */
  lemma StripTwice(s: string)
    ensures Strip(Strip(s)) == Strip(s) <==> !Exposes(s)
  {
    StripFixpoint(Strip(s));
    ExposesIntroducer(s);
  }

  /** Stripping is not idempotent: `ESC ESC [ m [ 3 1 m` leaves a colour code behind, and then nothing. */
  lemma StripNotIdempotent()
    ensures var s := [ESC, ESC, '[', 'm', '[', '3', '1', 'm'];
      Strip(s) == [ESC, '[', '3', '1', 'm'] && Strip(Strip(s)) == ""
  {
    FirstPass();
    SecondPass();
  }

  lemma FirstPass()
    ensures Strip([ESC, ESC, '[', 'm', '[', '3', '1', 'm']) == [ESC, '[', '3', '1', 'm']
  {
    var colour := ['[', '3', '1', 'm'];
    NoIntroducer(colour);
    StripFixpoint(colour);
    StripOne("", 'm', colour);
    StripOther(ESC, [ESC, '['] + "" + ['m'] + colour);
    assert [ESC] + ([ESC, '['] + "" + ['m'] + colour) == [ESC, ESC, '[', 'm', '[', '3', '1', 'm'];
    assert [ESC] + colour == [ESC, '[', '3', '1', 'm'];
  }

  lemma StripOther(c: char, rest: string)
    requires rest == "" || c != ESC || rest[0] != '['
    ensures Strip([c] + rest) == [c] + Strip(rest)
  {
    assert ([c] + rest)[1..] == rest;
  }

  lemma StripOne(body: string, final: char, rest: string)
    requires IsFinal(final) && forall i :: 0 <= i < |body| ==> !IsFinal(body[i])
    ensures Strip([ESC, '['] + body + [final] + rest) == Strip(rest)
  {
    var s := [ESC, '['] + body + [final] + rest;
    assert s[2..] == body + [final] + rest;
    AfterFinalAt(s[2..], |body|);
    assert s[2..][|body| + 1..] == rest;
  }

  lemma {:induction false} NoIntroducer(s: string)
    requires ESC !in s
    ensures !HasIntroducer(s)
  {
    if s != "" {
      NoIntroducer(s[1..]);
    }
  }

  lemma SecondPass()
    ensures Strip([ESC, '[', '3', '1', 'm']) == ""
  {
    StripOne(['3', '1'], 'm', "");
    assert [ESC, '['] + ['3', '1'] + ['m'] + "" == [ESC, '[', '3', '1', 'm'];
  }

  lemma {:induction false} AfterFinalAt(s: string, k: nat)
    requires k < |s| && IsFinal(s[k]) && forall i :: 0 <= i < k ==> !IsFinal(s[i])
    ensures AfterFinal(s) == s[k + 1..]
  {
    if k > 0 {
      AfterFinalAt(s[1..], k - 1);
      assert s[1..][k..] == s[k + 1..];
    }
  }

  // ----- control sequences by their code points -----

  /** Parameter, intermediate and final bytes lie where ECMA-48, section 5.4, puts them. */
  lemma WellFormedMeans(p: Piece)
    ensures p.Csi? ==>
      (WellFormed(p) <==>
        && (forall c :: c in p.parameters ==> 0x30 <= c as int <= 0x3f)
        && (forall c :: c in p.intermediates ==> 0x20 <= c as int <= 0x2f)
        && 0x40 <= p.final as int <= 0x7e)
    ensures p.Char? ==> WellFormed(p)
  {
  }

  /** A sequence ends with its first character from U+0040 to U+007E, or with the string if it has none. */
  lemma {:induction false} AfterFinalMeans(s: string) returns (k: nat)
    ensures k <= |s| && forall i :: 0 <= i < k ==> !(0x40 <= s[i] as int <= 0x7e)
    ensures if k < |s| then 0x40 <= s[k] as int <= 0x7e && AfterFinal(s) == s[k + 1..] else AfterFinal(s) == ""
  {
    k := 0;
    if s != "" && !(0x40 <= s[0] as int <= 0x7e) {
      var n := AfterFinalMeans(s[1..]);
      k := n + 1;
      assert forall i :: 1 <= i < k ==> s[i] == s[1..][i - 1];
    }
  }

  /**
   * One step of the stripping: an escape (U+001B) and a bracket are removed with what follows them up to
   * the first character from U+0040 to U+007E; any other character stays.
   */
  lemma StripSequence(s: string) returns (k: nat)
    requires s != ""
    ensures if |s| >= 2 && s[0] as int == 0x1b && s[1] as int == 0x5b then
              && 2 <= k <= |s| && (forall i :: 2 <= i < k ==> !(0x40 <= s[i] as int <= 0x7e))
              && (if k < |s| then 0x40 <= s[k] as int <= 0x7e && Strip(s) == Strip(s[k + 1..]) else Strip(s) == "")
            else k == 1 && Strip(s) == [s[0]] + Strip(s[1..])
  {
    k := 1;
    if Introduced(s) {
      var n := AfterFinalMeans(s[2..]);
      k := n + 2;
      assert forall i :: 2 <= i < k ==> s[i] == s[2..][i - 2];
      if n < |s[2..]| {
        assert s[2..][n + 1..] == s[k + 1..];
      }
    }
  }
}
