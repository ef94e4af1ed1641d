/**
 * String helpers shared by the model: ASCII case folding, substring search,
 * Python's `str.split()` / `str.strip()` and decimal rendering of naturals.
 * Strings are `seq<char>`; only the ASCII behaviour of the Python and
 * JavaScript library calls is modelled.
 */
module Strings {

  import opened Wrappers

  predicate IsUpper(c: char) { 'A' <= c <= 'Z' }
  predicate IsLower(c: char) { 'a' <= c <= 'z' }
  predicate IsDigit(c: char) { '0' <= c <= '9' }

  /**
   * Python's `str.isspace()` restricted to ASCII: the space, tab, line feed,
   * vertical tab, form feed, carriage return and the four separators
   * U+001C to U+001F.
   */
  predicate IsSpace(c: char) {
    c == ' ' || '\t' <= c <= '\r' || 28 as char <= c <= 31 as char
  }

  function LowerChar(c: char): (r: char)
    ensures IsUpper(c) ==> r as int == c as int + 32
    ensures !IsUpper(c) ==> r == c
    ensures !IsUpper(r)
  {
    if IsUpper(c) then (c as int + 32) as char else c
  }

  /** `s.lower()` on ASCII text. */
  function Lower(s: string): (r: string)
    ensures |r| == |s|
    ensures forall i :: 0 <= i < |s| ==> r[i] == LowerChar(s[i])
  {
    if s == [] then [] else [LowerChar(s[0])] + Lower(s[1..])
  }

  function UpperChar(c: char): (r: char)
    ensures IsLower(c) ==> r as int == c as int - 32
    ensures !IsLower(c) ==> r == c
  {
    if IsLower(c) then (c as int - 32) as char else c
  }

  /** `s.upper()` on ASCII text. */
  function Upper(s: string): (r: string)
    ensures |r| == |s|
    ensures forall i :: 0 <= i < |s| ==> r[i] == UpperChar(s[i])
  {
    if s == [] then [] else [UpperChar(s[0])] + Upper(s[1..])
  }

  predicate StartsWith(s: string, prefix: string) {
    |prefix| <= |s| && s[..|prefix|] == prefix
  }

  predicate EndsWith(s: string, suffix: string) {
    |suffix| <= |s| && s[|s| - |suffix|..] == suffix
  }

  /** `needle` occurs in `s` at position `i`. */
  predicate OccursAt(s: string, needle: string, i: int) {
    0 <= i <= |s| - |needle| && s[i..i + |needle|] == needle
  }

  /** `needle in s` for strings: some position where `needle` occurs. */
  predicate Contains(s: string, needle: string) {
    exists i :: 0 <= i <= |s| && OccursAt(s, needle, i)
  }

  /** Lowest position at or after `from` at which `needle` occurs, by a left-to-right scan. */
  function FindFrom(s: string, needle: string, from: nat): (r: Option<nat>)
    requires from <= |s|
    decreases |s| - from
    ensures r.Some? ==> from <= r.value && OccursAt(s, needle, r.value)
    ensures r.Some? ==> forall j :: from <= j < r.value ==> !OccursAt(s, needle, j)
    ensures r.None? ==> forall j :: from <= j ==> !OccursAt(s, needle, j)
  {
    if |s| - from < |needle| then None
    else if s[from..from + |needle|] == needle then Some(from)
    else FindFrom(s, needle, from + 1)
  }

  /** `s.find(needle)` (None for -1): the first occurrence, if any. */
  function Find(s: string, needle: string): (r: Option<nat>)
    ensures r.Some? <==> Contains(s, needle)
    ensures r.Some? ==> OccursAt(s, needle, r.value) && forall j :: 0 <= j < r.value ==> !OccursAt(s, needle, j)
  {
    FindFrom(s, needle, 0)
  }

  /**
   * Python's `str.strip()` for ASCII whitespace: the slice of `s` left once
   * the whitespace at both ends is gone.
   */
  function Strip(s: string): (r: string)
    ensures |r| <= |s|
    ensures r != [] ==> !IsSpace(r[0]) && !IsSpace(r[|r| - 1])
    ensures Blank(s) <==> r == []
  {
    StripEmptyIffBlank(s);
    StripRight(StripLeft(s))
  }

  /** The strip is a slice of the text between two whitespace-only ends. */
  lemma {:induction false} StripSlice(s: string)
    ensures exists i, j :: 0 <= i <= j <= |s| && Strip(s) == s[i..j] && Blank(s[..i]) && Blank(s[j..])
  {
    assert Strip(s) == StripRight(StripLeft(s));
    BothStripsSlice(s);
  }

  lemma {:induction false} BothStripsSlice(s: string)
    ensures exists i, j :: 0 <= i <= j <= |s| && StripRight(StripLeft(s)) == s[i..j] && Blank(s[..i]) && Blank(s[j..])
  {
    var l := StripLeft(s);
    var r := StripRight(l);
    var i := |s| - |l|;
    var j := i + |r|;
    assert r == s[i..j] by { SliceInside(s, l, r); }
    assert Blank(s[..i]) by { BlankHead(s, i); }
    assert Blank(s[j..]) by { BlankAfter(s, l, |r|); }
  }

  /** A prefix of a suffix of `s` is a slice of `s`. */
  lemma SliceInside<T>(s: seq<T>, l: seq<T>, r: seq<T>)
    requires |l| <= |s| && l == s[|s| - |l|..]
    requires |r| <= |l| && r == l[..|r|]
    ensures r == s[|s| - |l|..|s| - |l| + |r|]
  {
  }

  /** Whitespace throughout the first `n` characters makes a blank prefix. */
  lemma BlankHead(s: string, n: nat)
    requires n <= |s| && forall k :: 0 <= k < n ==> IsSpace(s[k])
    ensures Blank(s[..n])
  {
  }

  /** Whitespace from position `m` of a suffix `l` of `s` onwards makes a blank suffix of `s`. */
  lemma BlankAfter(s: string, l: string, m: nat)
    requires |l| <= |s| && l == s[|s| - |l|..]
    requires m <= |l| && forall k :: m <= k < |l| ==> IsSpace(l[k])
    ensures Blank(s[|s| - |l| + m..])
  {
    var tail := s[|s| - |l| + m..];
    forall k | 0 <= k < |tail| ensures IsSpace(tail[k]) {
      assert tail[k] == l[m + k];
    }
  }

  /** Stripping leaves nothing exactly when the text is all whitespace. */
  lemma {:induction false} StripEmptyIffBlank(s: string)
    ensures StripRight(StripLeft(s)) == [] <==> Blank(s)
  {
    var l := StripLeft(s);
    var r := StripRight(l);
    if r == [] {
      // the left strip, if non-empty, would start with a non-space kept by the right strip
      assert l == [];
    } else {
      assert r[0] == s[|s| - |l|] && !IsSpace(r[0]);
    }
  }

  /** Every character is whitespace. */
  predicate Blank(t: string) {
    forall k :: 0 <= k < |t| ==> IsSpace(t[k])
  }

  function StripLeft(s: string): (r: string)
    ensures |r| <= |s| && r == s[|s| - |r|..]
    ensures r != [] ==> !IsSpace(r[0])
    ensures r == [] ==> Blank(s)
    ensures forall i :: 0 <= i < |s| - |r| ==> IsSpace(s[i])
  {
    if s != [] && IsSpace(s[0]) then
      var r := StripLeft(s[1..]);
      assert s[1..][|s[1..]| - |r|..] == s[|s| - |r|..];
      forall i | 0 < i < |s| - |r| ensures IsSpace(s[i]) { assert s[i] == s[1..][i - 1]; }
      r
    else s
  }

  function StripRight(s: string): (r: string)
    ensures |r| <= |s| && r == s[..|r|]
    ensures r != [] ==> !IsSpace(r[|r| - 1])
    ensures r == [] ==> Blank(s)
    ensures forall i :: |r| <= i < |s| ==> IsSpace(s[i])
  {
    if s != [] && IsSpace(s[|s| - 1]) then
      var r := StripRight(s[..|s| - 1]);
      assert s[..|s| - 1][..|r|] == s[..|r|];
      forall i | |r| <= i < |s| - 1 ensures IsSpace(s[i]) { assert s[i] == s[..|s| - 1][i]; }
      r
    else s
  }

  /** Python's `s.split(sep)` for a one-character separator: every part, empty ones included. */
  function SplitOn(s: string, sep: char): (parts: seq<string>)
    ensures |parts| >= 1
    ensures forall k :: 0 <= k < |parts| ==> sep !in parts[k]
    decreases |s|
  {
    if sep !in s then [s]
    else
      var i := IndexOfChar(s, sep);
      [s[..i]] + SplitOn(s[i + 1..], sep)
  }

  function IndexOfChar(s: string, c: char): (i: nat)
    requires c in s
    ensures i < |s| && s[i] == c && c !in s[..i]
  {
    if s[0] == c then 0 else 1 + IndexOfChar(s[1..], c)
  }

  /** Python's argument-less `s.split()`: the maximal runs of non-whitespace characters. */
  function SplitWhitespace(s: string): (parts: seq<string>)
    ensures forall k :: 0 <= k < |parts| ==> IsWord(parts[k])
    decreases |s|
  {
    var t := StripLeft(s);
    if t == [] then []
    else
      var w := Word(t);
      var rest := SplitWhitespace(t[|w|..]);
      WordsCons(w, rest);
      [w] + rest
  }

  lemma WordsCons(w: string, rest: seq<string>)
    requires w != [] && forall j :: 0 <= j < |w| ==> !IsSpace(w[j])
    requires forall k :: 0 <= k < |rest| ==> IsWord(rest[k])
    ensures forall k :: 0 <= k < |[w] + rest| ==> IsWord(([w] + rest)[k])
  {
    forall k | 0 <= k < |[w] + rest| ensures IsWord(([w] + rest)[k]) {
      if k > 0 { assert ([w] + rest)[k] == rest[k - 1]; }
    }
  }

  /** A non-empty run of non-whitespace characters. */
  predicate IsWord(w: string) {
    w != [] && forall j :: 0 <= j < |w| ==> !IsSpace(w[j])
  }

  /** Two runs of non-whitespace joined by one space split back into those two parts. */
  lemma {:induction false} SplitTwoWords(a: string, b: string)
    requires a != [] && b != []
    requires forall j :: 0 <= j < |a| ==> !IsSpace(a[j])
    requires forall j :: 0 <= j < |b| ==> !IsSpace(b[j])
    ensures SplitWhitespace(a + " " + b) == [a, b]
  {
    var rest := [' '] + b;
    assert IsSpace(rest[0]);
    LeadingWordSplits(a, rest);
    ConcatAssoc(a, [' '], b);
    LeadingSpaceIgnored(' ', b);
    OneWordSplits(b);
  }

  lemma ConcatAssoc<T>(a: seq<T>, b: seq<T>, c: seq<T>)
    ensures a + b + c == a + (b + c)
  {
  }

  lemma {:induction false} OneWordSplits(w: string)
    requires w != [] && forall j :: 0 <= j < |w| ==> !IsSpace(w[j])
    ensures SplitWhitespace(w) == [w]
  {
    LeadingWordSplits(w, []);
    assert w + [] == w;
  }

  lemma {:induction false} LeadingSpaceIgnored(c: char, s: string)
    requires IsSpace(c)
    ensures SplitWhitespace([c] + s) == SplitWhitespace(s)
  {
    StripLeftSkipsSpace(c, s);
  }

  lemma {:induction false} StripLeftSkipsSpace(c: char, s: string)
    requires IsSpace(c)
    ensures StripLeft([c] + s) == StripLeft(s)
  {
    assert ([c] + s)[1..] == s;
  }

  lemma {:induction false} LeadingWordSplits(w: string, rest: string)
    requires w != [] && forall j :: 0 <= j < |w| ==> !IsSpace(w[j])
    requires rest == [] || IsSpace(rest[0])
    ensures SplitWhitespace(w + rest) == [w] + SplitWhitespace(rest)
  {
    var s := w + rest;
    assert s[0] == w[0];
    assert StripLeft(s) == s;
    WordIsLeadingRun(w, rest);
    assert s[|w|..] == rest;
  }

  lemma {:induction false} WordIsLeadingRun(w: string, rest: string)
    requires forall j :: 0 <= j < |w| ==> !IsSpace(w[j])
    requires rest == [] || IsSpace(rest[0])
    ensures Word(w + rest) == w
    decreases |w|
  {
    if w != [] {
      assert (w + rest)[1..] == w[1..] + rest;
      WordIsLeadingRun(w[1..], rest);
    }
  }

  /** The leading run of non-whitespace characters. */
  function Word(s: string): (w: string)
    ensures |w| <= |s| && w == s[..|w|]
    ensures forall j :: 0 <= j < |w| ==> !IsSpace(w[j])
    ensures |w| < |s| ==> IsSpace(s[|w|])
    ensures s != [] && !IsSpace(s[0]) ==> w != []
  {
    if s == [] || IsSpace(s[0]) then [] else [s[0]] + Word(s[1..])
  }

  /** `sep.join(parts)`. */
  function Join(parts: seq<string>, sep: string): (r: string)
    ensures parts == [] ==> r == []
    ensures |parts| == 1 ==> r == parts[0]
  {
    if parts == [] then []
    else if |parts| == 1 then parts[0]
    else parts[0] + sep + Join(parts[1..], sep)
  }

  /** A join of several parts begins with the first part and ends with the last. */
  lemma {:induction false} JoinEnds(parts: seq<string>, sep: string)
    requires |parts| > 0
    ensures StartsWith(Join(parts, sep), parts[0])
    ensures EndsWith(Join(parts, sep), parts[|parts| - 1])
  {
    if |parts| > 1 {
      JoinEnds(parts[1..], sep);
      var rest := Join(parts[1..], sep);
      var r := parts[0] + sep + rest;
      assert r[..|parts[0]|] == parts[0];
      assert r[|r| - |rest|..] == rest;
      assert rest[|rest| - |parts[|parts| - 1]|..] == parts[|parts| - 1];
      assert r[|r| - |parts[|parts| - 1]|..] == rest[|rest| - |parts[|parts| - 1]|..];
    }
  }

  /** Joining one more part appends the separator and that part. */
  lemma {:induction false} JoinSnoc(parts: seq<string>, p: string, sep: string)
    requires |parts| > 0
    ensures Join(parts + [p], sep) == Join(parts, sep) + sep + p
    decreases |parts|
  {
    var all := parts + [p];
    assert all[1..] == parts[1..] + [p];
    if |parts| > 1 {
      JoinSnoc(parts[1..], p, sep);
    }
  }

  /** `sep.join(s.split(sep)) == s`: splitting on a character loses nothing. */
  lemma {:induction false} JoinSplit(s: string, c: char)
    ensures Join(SplitOn(s, c), [c]) == s
    decreases |s|
  {
    if c in s {
      var i := IndexOfChar(s, c);
      var rest := SplitOn(s[i + 1..], c);
      JoinSplit(s[i + 1..], c);
      var parts := [s[..i]] + rest;
      assert parts[1..] == rest;
      assert s == s[..i] + [c] + s[i + 1..];
    }
  }

  /** Splitting at a separator between two texts splits each text on its own. */
  lemma {:induction false} SplitOnAppend(a: string, b: string, c: char)
    ensures SplitOn(a + [c] + b, c) == SplitOn(a, c) + SplitOn(b, c)
    decreases |a|
  {
    if c in a {
      var i := IndexOfChar(a, c);
      SplitOnAppend(a[i + 1..], b, c);
      SplitOnAppendStep(a, b, c);
    } else {
      SplitLine(a, c, b);
    }
  }

  /** One step of `SplitOnAppend`: from the text after the first separator of `a` to `a` itself. */
  lemma {:induction false} SplitOnAppendStep(a: string, b: string, c: char)
    requires c in a
    requires var i := IndexOfChar(a, c);
             SplitOn(a[i + 1..] + [c] + b, c) == SplitOn(a[i + 1..], c) + SplitOn(b, c)
    ensures SplitOn(a + [c] + b, c) == SplitOn(a, c) + SplitOn(b, c)
  {
    var i := IndexOfChar(a, c);
    var head, restA, restB := a[..i], SplitOn(a[i + 1..], c), SplitOn(b, c);
    assert SplitOn(a + [c] + b, c) == [head] + (restA + restB) by { SplitAfterFirst(a, b, c); }
    assert SplitOn(a, c) == [head] + restA by { SplitAt(a, c); }
    ConcatAssoc([head], restA, restB);
  }

  /** With a separator in `a`, the split of `a + [c] + b` starts with the first part of `a`. */
  lemma {:induction false} SplitAfterFirst(a: string, b: string, c: char)
    requires c in a
    ensures var i := IndexOfChar(a, c);
            SplitOn(a + [c] + b, c) == [a[..i]] + SplitOn(a[i + 1..] + [c] + b, c)
  {
    var t := a + [c] + b;
    var i := IndexOfChar(a, c);
    assert c in t && IndexOfChar(t, c) == i by {
      assert t == a + ([c] + b);
      IndexOfCharPrefix(a, c, [c] + b);
    }
    assert t[..i] == a[..i];
    assert t[i + 1..] == a[i + 1..] + [c] + b;
    SplitAt(t, c);
  }

  /** A text without the separator, then the separator: the split yields that text first. */
  lemma {:induction false} SplitLine(l: string, c: char, rest: string)
    requires c !in l
    ensures SplitOn(l + [c] + rest, c) == [l] + SplitOn(rest, c)
  {
    var s := l + [c] + rest;
    IndexAfter(l, c, rest);
    assert s[..|l|] == l && s[|l| + 1..] == rest;
    SplitAt(s, c);
  }

  /** Where the separator occurs, the split is the text before it, then the split of the text after it. */
  lemma {:induction false} SplitAt(s: string, sep: char)
    requires sep in s
    ensures SplitOn(s, sep) == [s[..IndexOfChar(s, sep)]] + SplitOn(s[IndexOfChar(s, sep) + 1..], sep)
  {
  }

  /** A character absent from `l` is first found where it follows `l`. */
  lemma {:induction false} IndexAfter(l: string, c: char, rest: string)
    requires c !in l
    ensures c in l + [c] + rest && IndexOfChar(l + [c] + rest, c) == |l|
  {
    var s := l + [c] + rest;
    assert s[|l|] == c;
    assert s[..|l|] == l;
  }

  /** The first occurrence in a prefix is the first occurrence in the whole text. */
  lemma {:induction false} IndexOfCharPrefix(a: string, c: char, b: string)
    requires c in a
    ensures c in a + b && IndexOfChar(a + b, c) == IndexOfChar(a, c)
  {
    var i := IndexOfChar(a, c);
    assert (a + b)[i] == c && (a + b)[..i] == a[..i];
  }

  /** `sep.join(parts).split(sep) == parts` when no part holds the separator. */
  lemma {:induction false} SplitJoin(parts: seq<string>, c: char)
    requires |parts| > 0 && forall k :: 0 <= k < |parts| ==> c !in parts[k]
    ensures SplitOn(Join(parts, [c]), c) == parts
    decreases |parts|
  {
    if |parts| > 1 {
      SplitJoin(parts[1..], c);
      SplitOnAppend(parts[0], Join(parts[1..], [c]), c);
      assert parts == [parts[0]] + parts[1..];
    }
  }

  /** Decimal rendering of a natural number, as `str(n)` and `f"{n}"` produce it. */
  function NatToString(n: nat): (r: string)
    ensures |r| >= 1
    ensures forall i :: 0 <= i < |r| ==> IsDigit(r[i])
    decreases n
  {
    if n < 10 then [DigitChar(n)] else NatToString(n / 10) + [DigitChar(n % 10)]
  }

  function DigitChar(d: nat): (c: char)
    requires d < 10
    ensures IsDigit(c) && DigitOf(c) == d
  {
    ('0' as int + d) as char
  }

  function DigitOf(c: char): (d: nat)
    requires IsDigit(c)
    ensures d < 10
  {
    c as int - '0' as int
  }

  /** Reads back a string of decimal digits. */
  function DigitsValue(s: string): (n: nat)
    requires forall i :: 0 <= i < |s| ==> IsDigit(s[i])
  {
    if s == [] then 0 else DigitsValue(s[..|s| - 1]) * 10 + DigitOf(s[|s| - 1])
  }

  /** Decimal rendering reads back to the number it renders. */
  lemma {:induction false} NatToStringRoundTrip(n: nat)
    ensures DigitsValue(NatToString(n)) == n
    decreases n
  {
    if n >= 10 {
      NatToStringRoundTrip(n / 10);
      var s := NatToString(n);
      assert s[..|s| - 1] == NatToString(n / 10);
    }
  }

  /** Zero-padded rendering, as the format `{n:0Wd}` produces it. */
  function PadNat(n: nat, width: nat): (r: string)
    ensures |r| >= width && |r| >= 1
    ensures forall i :: 0 <= i < |r| ==> IsDigit(r[i])
    ensures DigitsValue(r) == n
  {
    var s := NatToString(n);
    NatToStringRoundTrip(n);
    if |s| >= width then s
    else
      var zeros := seq(width - |s|, _ => '0');
      LeadingZeros(zeros, s);
      zeros + s
  }

  lemma {:induction false} LeadingZeros(zeros: string, s: string)
    requires forall i :: 0 <= i < |zeros| ==> zeros[i] == '0'
    requires forall i :: 0 <= i < |s| ==> IsDigit(s[i])
    ensures forall i :: 0 <= i < |zeros + s| ==> IsDigit((zeros + s)[i])
    ensures DigitsValue(zeros + s) == DigitsValue(s)
    decreases |s|
  {
    if s == [] {
      assert zeros + s == zeros;
      AllZeros(zeros);
    } else {
      LeadingZeros(zeros, s[..|s| - 1]);
      assert (zeros + s)[..|zeros + s| - 1] == zeros + s[..|s| - 1];
    }
  }

  lemma {:induction false} AllZeros(zeros: string)
    requires forall i :: 0 <= i < |zeros| ==> zeros[i] == '0'
    ensures DigitsValue(zeros) == 0
  {
    if zeros != [] {
      AllZeros(zeros[..|zeros| - 1]);
    }
  }
}
