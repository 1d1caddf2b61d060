/** Rust string lengths and ASCII case folding over Dafny's `char`. */
module Text {

  /** Bytes that UTF-8 (RFC 3629, section 3) uses for one scalar value. */
  function Utf8Length(c: char): nat {
    if c < '\U{80}' then 1
    else if c < '\U{800}' then 2
    else if c < '\U{10000}' then 3
    else 4
  }

  /** What `str::len` returns. */
  function ByteLength(s: string): nat {
    if s == "" then 0 else Utf8Length(s[0]) + ByteLength(s[1..])
  }

  function AsciiLower(c: char): char {
    if 'A' <= c <= 'Z' then c - 'A' + 'a' else c
  }

  function AsciiLowercase(s: string): string {
    seq(|s|, i requires 0 <= i < |s| => AsciiLower(s[i]))
  }

  /** One byte for seven bits, two for eleven, three for sixteen, four for the rest. */
  lemma Utf8LengthMeans(c: char)
    ensures Utf8Length(c) == 1 <==> c as int < 0x80
    ensures Utf8Length(c) == 2 <==> 0x80 <= c as int < 0x800
    ensures Utf8Length(c) == 3 <==> 0x800 <= c as int < 0x1_0000
    ensures Utf8Length(c) == 4 <==> 0x1_0000 <= c as int
  {
  }

  lemma ByteLengthOne(c: char)
    ensures ByteLength([c]) == Utf8Length(c)
  {
    assert [c][1..] == [];
  }

  /** A string has a byte for each character, and more than that exactly if one is beyond ASCII. */
  lemma {:induction false} ByteLengthMeans(s: string)
    ensures |s| <= ByteLength(s) <= 4 * |s|
    ensures ByteLength(s) == |s| <==> forall i :: 0 <= i < |s| ==> s[i] as int < 0x80
  {
    if s != "" {
      ByteLengthMeans(s[1..]);
      assert forall i :: 1 <= i < |s| ==> s[i] == s[1..][i - 1];
      if forall i :: 0 <= i < |s[1..]| ==> s[1..][i] as int < 0x80 {
        assert forall i :: 1 <= i < |s| ==> s[i] as int < 0x80;
      }
    }
  }

  lemma {:induction false} ByteLengthConcat(a: string, b: string)
    ensures ByteLength(a + b) == ByteLength(a) + ByteLength(b)
  {
    if a == "" {
      assert a + b == b;
    } else {
      assert (a + b)[1..] == a[1..] + b;
      ByteLengthConcat(a[1..], b);
    }
  }

  /** Two strings fold alike iff they have the same characters but for the case of the letters A to Z. */
  lemma FoldAlikeIff(a: string, b: string)
    ensures AsciiLowercase(a) == AsciiLowercase(b) <==>
      |a| == |b| && forall i :: 0 <= i < |a| ==>
        || a[i] == b[i]
        || (0x41 <= a[i] as int <= 0x5a && b[i] as int == a[i] as int + 0x20)
        || (0x41 <= b[i] as int <= 0x5a && a[i] as int == b[i] as int + 0x20)
  {
    if |a| == |b| {
      forall i | 0 <= i < |a|
        ensures AsciiLowercase(a)[i] == AsciiLowercase(b)[i] <==>
          || a[i] == b[i]
          || (0x41 <= a[i] as int <= 0x5a && b[i] as int == a[i] as int + 0x20)
          || (0x41 <= b[i] as int <= 0x5a && a[i] as int == b[i] as int + 0x20)
      {
        LowerMeans(a[i]);
        LowerMeans(b[i]);
      }
    } else {
      assert |AsciiLowercase(a)| == |a| && |AsciiLowercase(b)| == |b|;
    }
  }

  lemma LowerMeans(c: char)
    ensures AsciiLower(c) as int == c as int + if 0x41 <= c as int <= 0x5a then 0x20 else 0
  {
  }
}
