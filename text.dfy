/** The java.lang.String and commons-lang StringUtils operations the plugin relies on,
    over `string`, a sequence of characters. */
module Text {

  /** `p` occurs in `s` starting at index `i`. */
  predicate OccursAt(s: string, p: string, i: int)
  {
    0 <= i && i + |p| <= |s| && s[i..i + |p|] == p
  }

  /** `String.contains`. */
  predicate Contains(s: string, p: string)
  {
    exists i | 0 <= i <= |s| :: OccursAt(s, p, i)
  }

  /** `String.indexOf` from position `from` on; -1 when there is no occurrence. */
  function IndexFrom(s: string, p: string, from: nat): (r: int)
    requires from <= |s| + 1
    decreases |s| + 1 - from
    ensures r == -1 || (from <= r && OccursAt(s, p, r))
    ensures r == -1 ==> forall j :: from <= j ==> !OccursAt(s, p, j)
    ensures r != -1 ==> forall j :: from <= j < r ==> !OccursAt(s, p, j)
  {
    if from + |p| > |s| then -1
    else if s[from..from + |p|] == p then from
    else IndexFrom(s, p, from + 1)
  }

  /** `String.indexOf(p)`: the first occurrence, or -1. */
  function IndexOf(s: string, p: string): (r: int)
    ensures r == -1 <==> !Contains(s, p)
    ensures r != -1 ==> OccursAt(s, p, r) && forall j :: 0 <= j < r ==> !OccursAt(s, p, j)
  {
    IndexFrom(s, p, 0)
  }

  /** Search backwards from index `at`: the last occurrence starting at or before `at`. */
  function LastIndexFrom(s: string, p: string, at: int): (r: int)
    requires at <= |s|
    decreases at + 1
    ensures r == -1 || (0 <= r <= at && OccursAt(s, p, r))
    ensures r == -1 ==> forall j :: j <= at ==> !OccursAt(s, p, j)
    ensures r != -1 ==> forall j :: r < j <= at ==> !OccursAt(s, p, j)
  {
    if at < 0 then -1
    else if OccursAt(s, p, at) then at
    else LastIndexFrom(s, p, at - 1)
  }

  /** `String.lastIndexOf(p)`: the last occurrence, or -1. */
  function LastIndexOf(s: string, p: string): (r: int)
    ensures r == -1 <==> !Contains(s, p)
    ensures r != -1 ==> OccursAt(s, p, r) && forall j :: r < j ==> !OccursAt(s, p, j)
  {
    LastIndexFrom(s, p, |s|)
  }

  /** `StringUtils.replace(s, p, r)`: scan left to right and replace every
      non-overlapping occurrence of `p` by `r`; an empty `p` changes nothing. */
  function ReplaceAll(s: string, p: string, r: string): string
    decreases |s|
  {
    if |p| == 0 || |s| < |p| then s
    else if s[..|p|] == p then r + ReplaceAll(s[|p|..], p, r)
    else [s[0]] + ReplaceAll(s[1..], p, r)
  }

  /** Text without an occurrence of the pattern comes back unchanged. */
  lemma {:induction false} ReplaceAllAbsent(s: string, p: string, r: string)
    requires !Contains(s, p)
    ensures ReplaceAll(s, p, r) == s
    decreases |s|
  {
    if |p| == 0 || |s| < |p| {
    } else {
      assert !OccursAt(s, p, 0);
      assert s[..|p|] != p;
      forall i | 0 <= i <= |s[1..]| ensures !OccursAt(s[1..], p, i) {
        assert !OccursAt(s, p, i + 1);
        if i + |p| <= |s[1..]| {
          assert s[1..][i..i + |p|] == s[i + 1..i + 1 + |p|];
        }
      }
      ReplaceAllAbsent(s[1..], p, r);
    }
  }

  /** A prefix in which no occurrence starts is copied unchanged, and the
      replacement carries on from where the prefix ends. */
  lemma {:induction false} ReplaceAllSkip(s: string, p: string, r: string, j: nat)
    requires j <= |s|
    requires forall k :: 0 <= k < j ==> !OccursAt(s, p, k)
    ensures ReplaceAll(s, p, r) == s[..j] + ReplaceAll(s[j..], p, r)
    decreases j
  {
    if j == 0 {
      assert s[..0] + s[0..] == s;
    } else if |p| == 0 || |s| < |p| {
      ReplaceAllShort(s, p, r);
      ReplaceAllShort(s[j..], p, r);
      assert s[..j] + s[j..] == s;
    } else {
      NoOccurrenceInTail(s, p, j);
      ReplaceAllSkip(s[1..], p, r, j - 1);
      ReplaceAllSkipStep(s, p, r, j);
    }
  }

  /** One step of `ReplaceAllSkip`: the first character is copied and the rest of the
      prefix comes from the tail. */
  lemma ReplaceAllSkipStep(s: string, p: string, r: string, j: nat)
    requires 0 < j <= |s| && 0 < |p| <= |s| && !OccursAt(s, p, 0)
    requires ReplaceAll(s[1..], p, r) == s[1..][..j - 1] + ReplaceAll(s[1..][j - 1..], p, r)
    ensures ReplaceAll(s, p, r) == s[..j] + ReplaceAll(s[j..], p, r)
  {
    ReplaceAllFirstKept(s, p, r);
    assert s[1..][j - 1..] == s[j..];
    PrefixShift(s, j, ReplaceAll(s[1..], p, r), ReplaceAll(s[j..], p, r));
  }

  /** Putting the first character back in front of a split of the tail. */
  lemma PrefixShift(s: string, j: nat, a: string, b: string)
    requires 0 < j <= |s| && a == s[1..][..j - 1] + b
    ensures [s[0]] + a == s[..j] + b
  {
    assert s[..j] == [s[0]] + s[1..][..j - 1];
  }

  /** A text shorter than the pattern, or an empty pattern, changes nothing. */
  lemma ReplaceAllShort(s: string, p: string, r: string)
    requires |p| == 0 || |s| < |p|
    ensures ReplaceAll(s, p, r) == s
  {
  }

  /** Without an occurrence at the start, the first character is copied. */
  lemma ReplaceAllFirstKept(s: string, p: string, r: string)
    requires 0 < |p| <= |s| && !OccursAt(s, p, 0)
    ensures ReplaceAll(s, p, r) == [s[0]] + ReplaceAll(s[1..], p, r)
  {
  }

  /** Dropping the first character shifts the occurrence-free prefix by one. */
  lemma NoOccurrenceInTail(s: string, p: string, j: nat)
    requires 0 < j <= |s|
    requires forall k :: 0 <= k < j ==> !OccursAt(s, p, k)
    ensures forall k :: 0 <= k < j - 1 ==> !OccursAt(s[1..], p, k)
  {
    forall k | 0 <= k < j - 1 ensures !OccursAt(s[1..], p, k) {
      assert !OccursAt(s, p, k + 1);
      if k + |p| <= |s[1..]| {
        assert s[1..][k..k + |p|] == s[k + 1..k + 1 + |p|];
      }
    }
  }

  /** When `p` occurs exactly once, at `j`, only that window is replaced. */
  lemma {:induction false} ReplaceAllSingle(s: string, p: string, r: string, j: nat)
    requires |p| > 0 && OccursAt(s, p, j)
    requires forall k :: 0 <= k && k != j ==> !OccursAt(s, p, k)
    ensures ReplaceAll(s, p, r) == s[..j] + r + s[j + |p|..]
  {
    ReplaceAllSkip(s, p, r, j);
    var t := s[j..];
    assert t[..|p|] == p;
    var rest := s[j + |p|..];
    assert t[|p|..] == rest;
    assert ReplaceAll(t, p, r) == r + ReplaceAll(rest, p, r);
    TailAbsent(s, p, j + |p|);
    ReplaceAllAbsent(rest, p, r);
  }

  /** No occurrence starting at or after `from` means none in the suffix `s[from..]`. */
  lemma TailAbsent(s: string, p: string, from: nat)
    requires from <= |s|
    requires forall k :: from <= k ==> !OccursAt(s, p, k)
    ensures !Contains(s[from..], p)
  {
    var rest := s[from..];
    forall i | 0 <= i <= |rest| ensures !OccursAt(rest, p, i) {
      assert !OccursAt(s, p, from + i);
      if i + |p| <= |rest| {
        assert rest[i..i + |p|] == s[from + i..from + i + |p|];
      }
    }
  }

  /** One step of the scan: text up to the first occurrence is copied, that occurrence
      is replaced, and the scan resumes right after it. */
  lemma ReplaceAllFirst(s: string, p: string, r: string, j: nat)
    requires |p| > 0 && OccursAt(s, p, j)
    requires forall k :: 0 <= k < j ==> !OccursAt(s, p, k)
    ensures ReplaceAll(s, p, r) == s[..j] + r + ReplaceAll(s[j + |p|..], p, r)
  {
    ReplaceAllSkip(s, p, r, j);
    var t, u := s[j..], s[j + |p|..];
    assert OccursAt(t, p, 0) by { assert t[..|p|] == s[j..j + |p|]; }
    assert t[|p|..] == u;
    ReplaceAllAtStart(t, p, r);
    Regroup(s[..j], r, ReplaceAll(u, p, r), ReplaceAll(t, p, r));
  }

  /** Re-bracketing a concatenation of three pieces. */
  lemma Regroup(a: string, b: string, c: string, x: string)
    requires x == b + c
    ensures a + x == a + b + c
  {
  }

  /** An occurrence at the start is replaced and the scan resumes after it. */
  lemma ReplaceAllAtStart(t: string, p: string, r: string)
    requires |p| > 0 && OccursAt(t, p, 0)
    ensures ReplaceAll(t, p, r) == r + ReplaceAll(t[|p|..], p, r)
  {
    assert t[..|p|] == t[0..0 + |p|];
  }

  /** Reference reading of `StringUtils.replace`: find the first occurrence with
      `indexOf`, replace it, and go on with the text after it. */
  function ReplaceEach(s: string, p: string, r: string): string
    requires |p| > 0
    decreases |s|
  {
    var j := IndexOf(s, p);
    if j == -1 then s
    else s[..j] + r + ReplaceEach(s[j + |p|..], p, r)
  }

  /** The character-by-character scan replaces exactly what `ReplaceEach` replaces. */
  lemma {:induction false} ReplaceAllIsReplaceEach(s: string, p: string, r: string)
    requires |p| > 0
    ensures ReplaceAll(s, p, r) == ReplaceEach(s, p, r)
    decreases |s|
  {
    var j := IndexOf(s, p);
    if j == -1 {
      ReplaceAllAbsent(s, p, r);
    } else {
      var u := s[j + |p|..];
      ReplaceAllFirst(s, p, r, j);
      ReplaceAllIsReplaceEach(u, p, r);
      SameTail(ReplaceAll(s, p, r), ReplaceEach(s, p, r), s[..j] + r, ReplaceAll(u, p, r), ReplaceEach(u, p, r));
    }
  }

  /** A replacement shorter than the pattern never lengthens the text, and shortens it
      whenever the pattern occurs. */
  lemma {:induction false} ReplaceEachShorter(s: string, p: string, r: string)
    requires |r| < |p|
    ensures |ReplaceEach(s, p, r)| <= |s|
    ensures Contains(s, p) ==> |ReplaceEach(s, p, r)| < |s|
    decreases |s|
  {
    var j := IndexOf(s, p);
    if j != -1 {
      var u := s[j + |p|..];
      ReplaceEachShorter(u, p, r);
      var t := ReplaceEach(u, p, r);
      assert ReplaceEach(s, p, r) == s[..j] + r + t;
      assert |ReplaceEach(s, p, r)| == j + |r| + |t|;
    }
  }

  /** Two texts with the same head and equal tails are equal. */
  lemma SameTail(x: string, y: string, head: string, a: string, b: string)
    requires x == head + a && y == head + b && a == b
    ensures x == y
  {
  }

  /** `String.replaceAll("&", "&amp;")`: every ampersand is escaped, even one that
      already starts an `&amp;` entity. */
  function EscapeAmp(s: string): string
  {
    if s == [] then []
    else if s[0] == '&' then "&amp;" + EscapeAmp(s[1..])
    else [s[0]] + EscapeAmp(s[1..])
  }

  /** Reference decoder of `&amp;`, used to state that the escaping loses nothing. */
  function UnescapeAmp(s: string): string
  {
    if s == [] then []
    else if |s| >= 5 && s[..5] == "&amp;" then "&" + UnescapeAmp(s[5..])
    else [s[0]] + UnescapeAmp(s[1..])
  }

  /** Escaping is injective: decoding the escaped name gives the original back. */
  lemma {:induction false} EscapeAmpRoundTrip(s: string)
    ensures UnescapeAmp(EscapeAmp(s)) == s
  {
    if s != [] {
      EscapeAmpRoundTrip(s[1..]);
      var e := EscapeAmp(s);
      if s[0] == '&' {
        assert e[..5] == "&amp;" && e[5..] == EscapeAmp(s[1..]);
      } else {
        assert e[0] == s[0] && e[1..] == EscapeAmp(s[1..]);
      }
      assert [s[0]] + s[1..] == s;
    }
  }

  /** After escaping, every `&` starts an `&amp;` entity. */
  lemma {:induction false} EscapeAmpWellFormed(s: string)
    ensures forall i :: 0 <= i < |EscapeAmp(s)| && EscapeAmp(s)[i] == '&' ==> OccursAt(EscapeAmp(s), "&amp;", i)
  {
    if s != [] {
      EscapeAmpWellFormed(s[1..]);
      var e, t := EscapeAmp(s), EscapeAmp(s[1..]);
      var h := if s[0] == '&' then "&amp;" else [s[0]];
      assert e == h + t;
      forall i | 0 <= i < |e| && e[i] == '&' ensures OccursAt(e, "&amp;", i) {
        if i >= |h| {
          assert t[i - |h|] == '&';
          assert OccursAt(t, "&amp;", i - |h|);
          assert e[i..i + 5] == t[i - |h|..i - |h| + 5];
        }
      }
    }
  }

  /** An existing entity is escaped again: "&amp;" becomes "&amp;amp;". */
  lemma EscapeAmpNotIdempotent()
    ensures EscapeAmp("&amp;") == "&amp;amp;"
  {
    assert "&amp;"[1..] == "amp;";
    assert EscapeAmp("amp;") == "amp;" by {
      assert "amp;"[1..] == "mp;" && "mp;"[1..] == "p;" && "p;"[1..] == ";" && ";"[1..] == [];
    }
  }

  /** `Character.isWhitespace`: the ASCII controls TAB..CR and FS..US, the space, and the
      Unicode space, line and paragraph separators other than the non-breaking ones. */
  predicate IsWhitespace(c: char)
  {
    c == ' ' || ('\t' <= c <= '\r') || ('\U{001C}' <= c <= '\U{001F}')
    || c == '\U{1680}' || ('\U{2000}' <= c <= '\U{2006}') || ('\U{2008}' <= c <= '\U{200A}')
    || c == '\U{2028}' || c == '\U{2029}' || c == '\U{205F}' || c == '\U{3000}'
  }

  /** `StringUtils.isBlank` on a non-null string: empty or whitespace only. */
  predicate IsBlank(s: string)
  {
    forall i | 0 <= i < |s| :: IsWhitespace(s[i])
  }

  /** `s.trim().isEmpty()`: `trim` strips every character up to U+0020 from both ends. */
  predicate TrimsToEmpty(s: string)
  {
    forall i | 0 <= i < |s| :: s[i] <= ' '
  }
}
