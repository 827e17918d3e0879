/** The few pieces of Rust's string library that the renderer relies on:
    `str::len` (a length in UTF-8 bytes), `str::lines`, `join`, and the
    left-aligned width padding of `format!("{:<width$}", ..)`, which counts
    characters, not bytes. Strings are sequences of Unicode scalar values. */
module Text {

  function Max(a: nat, b: nat): nat { if a < b then b else a }

  /** Number of bytes the UTF-8 encoding of `c` takes. */
  function Utf8Width(c: char): (n: nat)
    ensures 1 <= n <= 4
    ensures n == 1 <==> c as int < 0x80
  {
    if c as int < 0x80 then 1
    else if c as int < 0x800 then 2
    else if c as int < 0x1_0000 then 3
    else 4
  }

  predicate IsAscii(s: string) {
    forall i :: 0 <= i < |s| ==> s[i] as int < 0x80
  }

  /** `str::len`: the length of `s` in UTF-8 bytes. */
  function ByteLen(s: string): (n: nat)
    ensures |s| <= n <= 4 * |s|
    ensures n == |s| <==> IsAscii(s)
  {
    if s == [] then 0
    else
      assert IsAscii(s) <==> s[0] as int < 0x80 && IsAscii(s[1..]) by {
        assert forall i :: 1 <= i < |s| ==> s[i] == s[1..][i - 1];
      }
      Utf8Width(s[0]) + ByteLen(s[1..])
  }

  /** Byte lengths add up over concatenation. */
  lemma {:induction false} ByteLenAppend(a: string, b: string)
    ensures ByteLen(a + b) == ByteLen(a) + ByteLen(b)
  {
    if a == [] {
      assert a + b == b;
    } else {
      assert (a + b)[1..] == a[1..] + b;
      ByteLenAppend(a[1..], b);
    }
  }

  lemma SplitRejoins(s: string, i: nat)
    requires i <= |s|
    ensures s[..i] + s[i..] == s
  {
  }

  /** Cutting a string in two splits its byte length. */
  lemma ByteLenSplit(s: string, i: nat)
    requires i <= |s|
    ensures ByteLen(s[..i]) + ByteLen(s[i..]) == ByteLen(s)
  {
    SplitRejoins(s, i);
    ByteLenAppend(s[..i], s[i..]);
  }

  /** A piece of a string is no longer, in bytes, than the string. */
  lemma ByteLenOfSlice(s: string, i: nat, j: nat)
    requires i <= j <= |s|
    ensures ByteLen(s[i..j]) <= ByteLen(s)
  {
    ByteLenSplit(s, j);
    ByteLenSplit(s[..j], i);
    assert s[..j][i..] == s[i..j];
  }

  /** Every stretch of `s` without a line feed is at most `m` bytes long. */
  ghost predicate WindowsBounded(s: string, m: nat) {
    forall i, j :: 0 <= i <= j <= |s| && '\n' !in s[i..j] ==> ByteLen(s[i..j]) <= m
  }

  /** `join(sep)` of a sequence of strings. */
  function Join(parts: seq<string>, sep: string): string {
    if parts == [] then []
    else if |parts| == 1 then parts[0]
    else parts[0] + sep + Join(parts[1..], sep)
  }

  /** The index of the first line feed of `s`, or `|s|` when there is none. */
  function NewlineIndex(s: string): (i: nat)
    ensures i <= |s|
    ensures i < |s| ==> s[i] == '\n'
    ensures forall j :: 0 <= j < i ==> s[j] != '\n'
  {
    if s == [] || s[0] == '\n' then 0 else 1 + NewlineIndex(s[1..])
  }

  /** A line ended by "\r\n" loses its carriage return. */
  function TrimCarriageReturn(line: string): string {
    if |line| > 0 && line[|line| - 1] == '\r' then line[..|line| - 1] else line
  }

  /** `str::lines`: the pieces between line feeds, each without its line
      ending ("\n" or "\r\n"); a final empty piece is not a line, so ""
      has no lines and "a\n" has one. */
  function Lines(s: string): (ls: seq<string>)
    ensures |ls| <= |s|
    ensures forall k :: 0 <= k < |ls| ==> '\n' !in ls[k]
    decreases |s|
  {
    if s == [] then []
    else
      var i := NewlineIndex(s);
      if i == |s| then [s]
      else [TrimCarriageReturn(s[..i])] + Lines(s[i + 1..])
  }

  /** A line as the drinks menu writes it: no line break of any kind inside. */
  predicate PlainLine(l: string) {
    '\n' !in l && '\r' !in l
  }

  lemma LinesOfPlain(a: string)
    requires a != [] && PlainLine(a)
    ensures Lines(a) == [a]
  {
    assert forall j :: 0 <= j < |a| ==> a[j] != '\n';
  }

  /** A plain line followed by a line feed is the first line of the text. */
  lemma LinesCons(a: string, rest: string)
    requires PlainLine(a)
    ensures Lines(a + "\n" + rest) == [a] + Lines(rest)
  {
    var s := a + "\n" + rest;
    assert forall j :: 0 <= j < |a| ==> s[j] == a[j];
    assert s[|a|] == '\n';
    assert NewlineIndex(s) == |a|;
    assert s[..|a|] == a;
    assert s[|a| + 1..] == rest;
  }

  /** A suffix keeps the bound on its stretches without a line feed. */
  lemma WindowsBoundedSuffix(s: string, m: nat, p: nat)
    requires WindowsBounded(s, m) && p <= |s|
    ensures WindowsBounded(s[p..], m)
  {
    forall a, b | 0 <= a <= b <= |s[p..]| && '\n' !in s[p..][a..b]
      ensures ByteLen(s[p..][a..b]) <= m
    {
      assert s[p..][a..b] == s[p + a..p + b];
    }
  }

  /** A prefix that stops at or before the first line feed is bounded. */
  lemma PrefixBounded(s: string, m: nat, n: nat)
    requires WindowsBounded(s, m) && n <= NewlineIndex(s)
    ensures ByteLen(s[..n]) <= m
  {
    assert s[..n] == s[0..n];
    assert forall j :: 0 <= j < n ==> s[0..n][j] == s[j];
  }

  /** Every line `lines()` yields is a stretch of the text without a line
      feed, so it is no longer than the longest such stretch. */
  lemma {:induction false} LinesBounded(s: string, m: nat)
    requires WindowsBounded(s, m)
    ensures forall k :: 0 <= k < |Lines(s)| ==> ByteLen(Lines(s)[k]) <= m
    decreases |s|
  {
    if s != [] {
      var i := NewlineIndex(s);
      if i == |s| {
        PrefixBounded(s, m, i);
        assert s[..i] == s;
      } else {
        var first := s[..i];
        if |first| > 0 && first[|first| - 1] == '\r' {
          PrefixBounded(s, m, i - 1);
          assert TrimCarriageReturn(first) == s[..i - 1];
        } else {
          PrefixBounded(s, m, i);
        }
        WindowsBoundedSuffix(s, m, i + 1);
        LinesBounded(s[i + 1..], m);
        assert Lines(s) == [TrimCarriageReturn(first)] + Lines(s[i + 1..]);
      }
    }
  }

  /** A line feed inside a stretch is in that stretch. */
  lemma NewlineInWindow(s: string, i: nat, j: nat, p: nat)
    requires i <= p < j <= |s| && s[p] == '\n'
    ensures '\n' in s[i..j]
  {
    assert s[i..j][p - i] == s[p];
  }

  /** A stretch without a line feed of segments joined with "\n" lies inside
      one segment, so it is no longer than the longest segment. */
  lemma {:induction false} JoinWindowsBounded(segs: seq<string>, m: nat)
    requires forall k :: 0 <= k < |segs| ==> ByteLen(segs[k]) <= m
    ensures WindowsBounded(Join(segs, "\n"), m)
    decreases |segs|
  {
    var s := Join(segs, "\n");
    if segs == [] {
      forall i, j | 0 <= i <= j <= |s| && '\n' !in s[i..j]
        ensures ByteLen(s[i..j]) <= m
      {
        assert s[i..j] == [];
      }
    } else if |segs| == 1 {
      forall i, j | 0 <= i <= j <= |s| && '\n' !in s[i..j]
        ensures ByteLen(s[i..j]) <= m
      {
        ByteLenOfSlice(segs[0], i, j);
      }
    } else {
      var a := segs[0];
      var rest := Join(segs[1..], "\n");
      assert forall k :: 0 <= k < |segs[1..]| ==> segs[1..][k] == segs[k + 1];
      JoinWindowsBounded(segs[1..], m);
      assert s == a + "\n" + rest;
      forall i, j | 0 <= i <= j <= |s| && '\n' !in s[i..j]
        ensures ByteLen(s[i..j]) <= m
      {
        if j <= |a| {
          assert s[i..j] == a[i..j];
          ByteLenOfSlice(a, i, j);
        } else if |a| < i {
          assert s[i..j] == rest[i - |a| - 1..j - |a| - 1];
        } else {
          NewlineInWindow(s, i, j, |a|);
        }
      }
    }
  }

  /** Joining segments with "\n" makes no line longer than the longest
      segment, whatever line breaks the segments hold themselves. */
  lemma JoinLinesNoWiderThanSegments(segs: seq<string>, m: nat)
    requires forall k :: 0 <= k < |segs| ==> ByteLen(segs[k]) <= m
    ensures MaxLineLen(Join(segs, "\n")) <= m
  {
    JoinWindowsBounded(segs, m);
    LinesBounded(Join(segs, "\n"), m);
  }

  /** Splitting the lines joined with "\n" gives the lines back, as long as
      none of them is empty or holds a line break. */
  lemma {:induction false} LinesOfJoin(parts: seq<string>)
    requires forall k :: 0 <= k < |parts| ==> parts[k] != [] && PlainLine(parts[k])
    ensures Lines(Join(parts, "\n")) == parts
  {
    if parts == [] {
    } else if |parts| == 1 {
      LinesOfPlain(parts[0]);
    } else {
      LinesCons(parts[0], Join(parts[1..], "\n"));
      LinesOfJoin(parts[1..]);
    }
  }

  /** `.map(|line| line.len()).max().unwrap_or(0)` over `lines`. */
  function MaxByteLen(lines: seq<string>): (m: nat)
    ensures forall k :: 0 <= k < |lines| ==> ByteLen(lines[k]) <= m
    ensures lines == [] ==> m == 0
    ensures lines != [] ==> exists k :: 0 <= k < |lines| && ByteLen(lines[k]) == m
  {
    if lines == [] then 0
    else
      var m := MaxByteLen(lines[1..]);
      assert forall k :: 1 <= k < |lines| ==> lines[k] == lines[1..][k - 1];
      Max(ByteLen(lines[0]), m)
  }

  lemma MaxByteLenOfTwo(a: string, b: string)
    ensures MaxByteLen([a, b]) == Max(ByteLen(a), ByteLen(b))
  {
    assert [a, b][1..] == [b];
  }

  /** The byte length of the longest line of `s`, 0 when it has none. */
  function MaxLineLen(s: string): nat {
    MaxByteLen(Lines(s))
  }

  function Repeat(c: char, n: nat): (r: string)
    ensures |r| == n
    ensures forall i :: 0 <= i < n ==> r[i] == c
  {
    seq(n, _ => c)
  }

  /** `format!("{:<width$}", s)`: `s`, then spaces until it is `width`
      characters long; a longer `s` is left as it is. */
  function PadRight(s: string, width: nat): (r: string)
    ensures |r| == Max(|s|, width)
    ensures r[..|s|] == s
    ensures forall i :: |s| <= i < |r| ==> r[i] == ' '
  {
    if |s| < width then s + Repeat(' ', width - |s|) else s
  }

  /** The number of occurrences of `c` in `s`. */
  function Count(c: char, s: string): (n: nat)
    ensures n <= |s|
  {
    if s == [] then 0 else (if s[0] == c then 1 else 0) + Count(c, s[1..])
  }

  lemma {:induction false} CountAppend(c: char, a: string, b: string)
    ensures Count(c, a + b) == Count(c, a) + Count(c, b)
  {
    if a != [] {
      assert (a + b)[1..] == a[1..] + b;
      CountAppend(c, a[1..], b);
    } else {
      assert a + b == b;
    }
  }

  lemma {:induction false} CountRepeat(c: char, d: char, n: nat)
    ensures Count(c, Repeat(d, n)) == if c == d then n else 0
  {
    if n > 0 {
      assert Repeat(d, n)[1..] == Repeat(d, n - 1);
      CountRepeat(c, d, n - 1);
    }
  }
}
