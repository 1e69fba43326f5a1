/** String handling shared by every module of the bot: Python's `str.split`,
    `str.strip`, `startswith`/`endswith`/`in`, `str.isdigit`, `int()`/`str()` on
    decimal numbers, and the character classes its regular expressions use.

    Character classes are the ASCII part of Python's Unicode classes: a digit is
    '0'..'9', a word character (`\w`) an ASCII letter, digit or '_', and white space
    (`\s`, `str.split()`, `str.strip()`) the ASCII characters Python treats as white
    space (tab to carriage return, the four separators 0x1C..0x1F, and ' '). */
module Text {

  datatype Option<+T> = None | Some(value: T)

  // ---------------------------------------------------------------------------
  // Character classes

  predicate IsDigit(c: char) { '0' <= c <= '9' }

  predicate IsAsciiLetter(c: char) { 'a' <= c <= 'z' || 'A' <= c <= 'Z' }

  /** `str.isalnum()` restricted to ASCII. */
  predicate IsAlnum(c: char) { IsDigit(c) || IsAsciiLetter(c) }

  /** The regular-expression class `\w`. */
  predicate IsWordChar(c: char) { IsAlnum(c) || c == '_' }

  /** The regular-expression class `\s`, and what `str.split()`/`str.strip()` drop. */
  predicate IsSpace(c: char) { c == ' ' || '\t' <= c <= '\r' || '\U{1C}' <= c <= '\U{1F}' }

  predicate NotSpace(c: char) { !IsSpace(c) }

  predicate NotBacktick(c: char) { c != '`' }

  /** `str.isdigit()`: non-empty and digits only. */
  predicate AllDigits(s: string) { |s| > 0 && forall i :: 0 <= i < |s| ==> IsDigit(s[i]) }

  predicate NoSpace(s: string) { forall i :: 0 <= i < |s| ==> !IsSpace(s[i]) }

  /** ASCII `str.lower()`. */
  function LowerChar(c: char): (r: char)
    ensures 'A' <= c <= 'Z' ==> r as int == c as int + 32
    ensures !('A' <= c <= 'Z') ==> r == c
  {
    if 'A' <= c <= 'Z' then (c as int + 32) as char else c
  }

  function Lower(s: string): (r: string)
    ensures |r| == |s|
    ensures forall i :: 0 <= i < |s| ==> r[i] == LowerChar(s[i])
  {
    if s == [] then [] else [LowerChar(s[0])] + Lower(s[1..])
  }

  // ---------------------------------------------------------------------------
  // Prefixes, suffixes, containment

  predicate StartsWith(s: string, p: string) { |p| <= |s| && s[..|p|] == p }

  predicate EndsWith(s: string, p: string) { |p| <= |s| && s[|s| - |p|..] == p }

  /** Python's `sub in s`. */
  predicate Contains(s: string, sub: string)
  {
    exists i :: 0 <= i <= |s| - |sub| && StartsWith(s[i..], sub)
  }

  lemma ContainsAt(s: string, sub: string, i: nat)
    requires i <= |s| && StartsWith(s[i..], sub)
    ensures Contains(s, sub)
  {
  }

  /** A text that contains `sub` still contains it once something is put on either side. */
  lemma ContainsInContext(a: string, s: string, b: string, sub: string)
    requires Contains(s, sub)
    ensures Contains(a + s + b, sub)
  {
    var i :| 0 <= i <= |s| - |sub| && StartsWith(s[i..], sub);
    var t := a + s + b;
    assert t[|a| + i..][..|sub|] == s[i..][..|sub|];
    ContainsAt(t, sub, |a| + i);
  }

  lemma ContainsSelf(s: string)
    ensures Contains(s, s)
  {
    ContainsAt(s, s, 0);
  }

  // ---------------------------------------------------------------------------
  // Filtering and runs

  /** Python's `''.join(c for c in s if keep(c))`. */
  function Filter(s: string, keep: char -> bool): (r: string)
    ensures |r| <= |s|
    ensures forall i :: 0 <= i < |r| ==> keep(r[i])
    ensures (forall i :: 0 <= i < |s| ==> keep(s[i])) ==> r == s
  {
    if s == [] then []
    else
      var tail := Filter(s[1..], keep);
      assert s == [s[0]] + s[1..];
      (if keep(s[0]) then [s[0]] else []) + tail
  }

  lemma {:induction false} FilterAppend(a: string, b: string, keep: char -> bool)
    ensures Filter(a + b, keep) == Filter(a, keep) + Filter(b, keep)
  {
    if a == [] {
      assert a + b == b;
    } else {
      assert (a + b)[1..] == a[1..] + b;
      FilterAppend(a[1..], b, keep);
      assert (a + b)[0] == a[0];
    }
  }

  /** Filtering twice with the same test is filtering once. */
  lemma FilterIdempotent(s: string, keep: char -> bool)
    ensures Filter(Filter(s, keep), keep) == Filter(s, keep)
  {
  }

  /** The first index at or after `from` where `c` occurs in `s`, or `|s|`. */
  function FindChar(s: string, c: char, from: nat): (i: nat)
    requires from <= |s|
    ensures from <= i <= |s|
    ensures i < |s| ==> s[i] == c
    ensures forall j :: from <= j < i ==> s[j] != c
    decreases |s| - from
  {
    if from == |s| || s[from] == c then from else FindChar(s, c, from + 1)
  }

  /** `c not in s`. */
  predicate Lacks(s: string, c: char)
  {
    forall k :: 0 <= k < |s| ==> s[k] != c
  }

  /** The number of decimal digits `s` starts with. */
  function LeadingDigits(s: string): (n: nat)
    ensures n <= |s|
    ensures forall i :: 0 <= i < n ==> IsDigit(s[i])
    ensures n < |s| ==> !IsDigit(s[n])
  {
    if s != [] && IsDigit(s[0]) then 1 + LeadingDigits(s[1..]) else 0
  }

  /** The length of the longest prefix of `s` whose characters all pass `p`. */
  function SpanLen(s: string, p: char -> bool): (n: nat)
    ensures n <= |s|
    ensures forall i :: 0 <= i < n ==> p(s[i])
    ensures n < |s| ==> !p(s[n])
  {
    if s != [] && p(s[0]) then 1 + SpanLen(s[1..], p) else 0
  }

  // ---------------------------------------------------------------------------
  // str.strip()

  /** The number of white-space characters `s` starts with. */
  function LeadingSpaces(s: string): (n: nat)
    ensures n <= |s|
    ensures forall i :: 0 <= i < n ==> IsSpace(s[i])
    ensures n < |s| ==> !IsSpace(s[n])
  {
    if s != [] && IsSpace(s[0]) then 1 + LeadingSpaces(s[1..]) else 0
  }

  function StripLeft(s: string): (r: string)
    ensures r == s[LeadingSpaces(s)..]
  {
    s[LeadingSpaces(s)..]
  }

  function StripRight(s: string): (r: string)
    ensures |r| <= |s| && r == s[..|r|]
    ensures r == [] || !IsSpace(r[|r| - 1])
    ensures forall i :: |r| <= i < |s| ==> IsSpace(s[i])
  {
    if s != [] && IsSpace(s[|s| - 1]) then StripRight(s[..|s| - 1]) else s
  }

  /** `str.strip()`: `r` is the slice of `s` that starts after its leading white
      space, neither starts nor ends with white space, and is followed by white
      space only. */
  function Strip(s: string): (r: string)
    ensures LeadingSpaces(s) + |r| <= |s|
    ensures r == s[LeadingSpaces(s)..LeadingSpaces(s) + |r|]
    ensures r == [] || (!IsSpace(r[0]) && !IsSpace(r[|r| - 1]))
    ensures forall i :: LeadingSpaces(s) + |r| <= i < |s| ==> IsSpace(s[i])
  {
    var k := LeadingSpaces(s);
    var r := StripRight(s[k..]);
    assert r == s[k..][..|r|];
    r
  }

  /** Stripping keeps only characters of the text, so a property of every character
      survives it. */
  lemma StripKeeps(s: string, p: char -> bool)
    requires forall i :: 0 <= i < |s| ==> p(s[i])
    ensures forall i :: 0 <= i < |Strip(s)| ==> p(Strip(s)[i])
  {
    var r := Strip(s);
    var d := LeadingSpaces(s);
    forall i | 0 <= i < |r|
      ensures p(r[i])
    {
      assert r[i] == s[d + i];
    }
  }

  /** Stripping a string that has no white space at either end changes nothing. */
  lemma StripNoop(s: string)
    requires s == [] || (!IsSpace(s[0]) && !IsSpace(s[|s| - 1]))
    ensures Strip(s) == s
  {
  }

  // ---------------------------------------------------------------------------
  // str.find / str.split(sep) / sep.join(parts)

  /** The first index at or after `from` where `sep` occurs in `s`. */
  function FindFrom(s: string, sep: string, from: nat): (r: Option<nat>)
    requires from <= |s|
    ensures r.Some? ==> from <= r.value <= |s| && StartsWith(s[r.value..], sep)
    ensures r.Some? ==> forall j :: from <= j < r.value ==> !StartsWith(s[j..], sep)
    ensures r.None? ==> forall j :: from <= j <= |s| ==> !StartsWith(s[j..], sep)
    decreases |s| - from
  {
    if StartsWith(s[from..], sep) then Some(from)
    else if from == |s| then None
    else FindFrom(s, sep, from + 1)
  }

  /** `sep.join(parts)`. */
  function Join(parts: seq<string>, sep: string): string
  {
    if |parts| == 0 then "" else if |parts| == 1 then parts[0]
    else parts[0] + sep + Join(parts[1..], sep)
  }

  /** Joining one more part adds the separator and the part. */
  lemma {:induction false} JoinSnoc(parts: seq<string>, x: string, sep: string)
    ensures Join(parts + [x], sep) == if parts == [] then x else Join(parts, sep) + sep + x
  {
    if |parts| >= 2 {
      assert (parts + [x])[1..] == parts[1..] + [x];
      JoinSnoc(parts[1..], x, sep);
    } else if |parts| == 1 {
      assert (parts + [x])[1..] == [x];
    }
  }

  /** Joining two non-empty lists is joining each and putting the separator between. */
  lemma {:induction false} JoinAppend(a: seq<string>, b: seq<string>, sep: string)
    requires a != [] && b != []
    ensures Join(a + b, sep) == Join(a, sep) + sep + Join(b, sep)
    decreases |a|
  {
    if |a| == 1 {
      assert (a + b)[1..] == b;
    } else {
      assert (a + b)[1..] == a[1..] + b;
      JoinAppend(a[1..], b, sep);
      var j1, jb := Join(a[1..], sep), Join(b, sep);
      assert a[0] + sep + (j1 + sep + jb) == a[0] + sep + j1 + sep + jb;
    }
  }

  /** A text with no occurrence of `sep` before index `i` has none inside its first `i` characters. */
  lemma NoOccurrenceInPrefix(s: string, sep: string, i: nat)
    requires i <= |s|
    requires forall j :: 0 <= j < i ==> !StartsWith(s[j..], sep)
    requires |sep| > 0
    ensures !Contains(s[..i], sep)
  {
    forall j | 0 <= j <= i - |sep|
      ensures !StartsWith(s[..i][j..], sep)
    {
      assert s[..i][j..][..|sep|] == s[j..][..|sep|];
    }
  }

  /** Python's `s.split(sep)` for a non-empty separator: the parts joined back with
      `sep` give `s`, and no part contains `sep`. */
  function Split(s: string, sep: string): (parts: seq<string>)
    requires |sep| > 0
    ensures |parts| >= 1
    ensures Join(parts, sep) == s
    ensures forall k :: 0 <= k < |parts| ==> !Contains(parts[k], sep)
    decreases |s|
  {
    match FindFrom(s, sep, 0)
    case None =>
      NoOccurrenceInPrefix(s, sep, |s|);
      assert s[..|s|] == s;
      [s]
    case Some(i) =>
      NoOccurrenceInPrefix(s, sep, i);
      var rest := Split(s[i + |sep|..], sep);
      assert s == s[..i] + sep + s[i + |sep|..] by {
        assert s[i..][..|sep|] == sep;
      }
      [s[..i]] + rest
  }

  /** A separator whose character `sep[k]` is absent from `a`, and from the
      separator before position `k`, is first found right after `a`. */
  lemma FirstSeparator(a: string, b: string, sep: string, k: nat)
    requires k < |sep|
    requires forall i :: 0 <= i < |a| ==> a[i] != sep[k]
    requires forall j :: 0 <= j < k ==> sep[j] != sep[k]
    ensures FindFrom(a + sep + b, sep, 0) == Some(|a|)
  {
    var s := a + sep + b;
    assert s[|a|..][..|sep|] == sep;
    forall i | 0 <= i < |a| && i + |sep| <= |s|
      ensures !StartsWith(s[i..], sep)
    {
      assert s[i..][k] == s[i + k];
    }
  }

  /** Splitting `a + sep + b` yields `a` followed by the parts of `b`. */
  lemma SplitCons(a: string, b: string, sep: string, k: nat)
    requires k < |sep|
    requires forall i :: 0 <= i < |a| ==> a[i] != sep[k]
    requires forall j :: 0 <= j < k ==> sep[j] != sep[k]
    ensures Split(a + sep + b, sep) == [a] + Split(b, sep)
  {
    var s := a + sep + b;
    FirstSeparator(a, b, sep, k);
    assert s[..|a|] == a;
    assert s[|a| + |sep|..] == b;
  }

  /** A text without the character `sep[k]` is not split at all. */
  lemma SplitSingle(a: string, sep: string, k: nat)
    requires k < |sep|
    requires forall i :: 0 <= i < |a| ==> a[i] != sep[k]
    ensures Split(a, sep) == [a]
  {
    forall i | 0 <= i <= |a|
      ensures !StartsWith(a[i..], sep)
    {
      if i + k < |a| {
        assert a[i..][k] == a[i + k];
      }
    }
  }

  // ---------------------------------------------------------------------------
  // str.split() with no argument, and ' '.join(...)

  /** Python's `s.split()`: the maximal runs of non-white-space characters, in order. */
  function Words(s: string): (ws: seq<string>)
    ensures forall k :: 0 <= k < |ws| ==> ws[k] != [] && NoSpace(ws[k])
    decreases |s|
  {
    var t := StripLeft(s);
    if t == [] then []
    else
      var n := SpanLen(t, NotSpace);
      FirstWordShape(s);
      var rest := Words(t[n..]);
      WordCons(t[..n], rest);
      [t[..n]] + rest
  }

  /** The first word of a text that is not blank is not empty and has no white space. */
  lemma FirstWordShape(s: string)
    requires StripLeft(s) != []
    ensures var t := StripLeft(s); var n := SpanLen(t, NotSpace);
      0 < n <= |t| <= |s| && t[..n] != [] && NoSpace(t[..n])
  {
    var t := StripLeft(s);
    assert t[0] == s[LeadingSpaces(s)];
    var n := SpanLen(t, NotSpace);
    forall i | 0 <= i < n
      ensures !IsSpace(t[..n][i])
    {
      assert t[..n][i] == t[i];
    }
  }

  lemma WordCons(w: string, rest: seq<string>)
    requires w != [] && NoSpace(w)
    requires forall k :: 0 <= k < |rest| ==> rest[k] != [] && NoSpace(rest[k])
    ensures forall k :: 0 <= k < |[w] + rest| ==> ([w] + rest)[k] != [] && NoSpace(([w] + rest)[k])
  {
    var ws := [w] + rest;
    assert forall k :: 1 <= k < |ws| ==> ws[k] == rest[k - 1];
  }

  /** One step of `Words`: the first word is the first run of non-white-space. */
  lemma WordsUnfold(s: string)
    requires StripLeft(s) != []
    ensures SpanLen(StripLeft(s), NotSpace) > 0
    ensures Words(s) == [StripLeft(s)[..SpanLen(StripLeft(s), NotSpace)]]
                        + Words(StripLeft(s)[SpanLen(StripLeft(s), NotSpace)..])
  {
  }

  function Concat(ws: seq<string>): string
  {
    if ws == [] then "" else ws[0] + Concat(ws[1..])
  }

  /** The words of `s` are exactly its non-white-space characters, cut into pieces. */
  lemma {:induction false} WordsKeepText(s: string)
    ensures Concat(Words(s)) == Filter(s, NotSpace)
    decreases |s|
  {
    var t := StripLeft(s);
    if t != [] {
      var n := SpanLen(t, NotSpace);
      WordsConcatStep(s);
      FilterWordStep(s);
      WordsKeepText(t[n..]);
    } else {
      assert Words(s) == [];
      assert s[LeadingSpaces(s)..] == [];
      AllSpaceFilter(s);
    }
  }

  /** The words of a text that is not blank: its first word, then the words after it. */
  lemma WordsConcatStep(s: string)
    requires StripLeft(s) != []
    ensures var t := StripLeft(s); var n := SpanLen(t, NotSpace);
      Concat(Words(s)) == t[..n] + Concat(Words(t[n..]))
  {
    var t := StripLeft(s);
    var n := SpanLen(t, NotSpace);
    WordsUnfold(s);
    assert ([t[..n]] + Words(t[n..]))[1..] == Words(t[n..]);
  }

  /** Filtering white space out of a text that is not blank: its first word, then the
      filtered rest. */
  lemma FilterWordStep(s: string)
    requires StripLeft(s) != []
    ensures var t := StripLeft(s); var n := SpanLen(t, NotSpace);
      Filter(s, NotSpace) == t[..n] + Filter(t[n..], NotSpace)
  {
    FilterSkipsSpaces(s);
    FilterFirstWord(StripLeft(s));
  }

  /** Leading white space does not survive the filter. */
  lemma FilterSkipsSpaces(s: string)
    ensures Filter(s, NotSpace) == Filter(StripLeft(s), NotSpace)
  {
    var d := LeadingSpaces(s);
    assert s == s[..d] + s[d..];
    FilterAppend(s[..d], s[d..], NotSpace);
    AllSpaceFilter(s[..d]);
  }

  /** A leading run of non-white-space characters survives the filter whole. */
  lemma FilterFirstWord(t: string)
    ensures var n := SpanLen(t, NotSpace); Filter(t, NotSpace) == t[..n] + Filter(t[n..], NotSpace)
  {
    var n := SpanLen(t, NotSpace);
    var w := t[..n];
    assert t == w + t[n..];
    FilterAppend(w, t[n..], NotSpace);
    assert forall i :: 0 <= i < |w| ==> NotSpace(w[i]);
  }

  lemma {:induction false} AllSpaceFilter(s: string)
    requires forall i :: 0 <= i < |s| ==> IsSpace(s[i])
    ensures Filter(s, NotSpace) == []
  {
    if s != [] {
      AllSpaceFilter(s[1..]);
    }
  }

  /** `' '.join(s.split())`: runs of white space become one space, ends are trimmed. */
  function CollapseSpaces(s: string): string
  {
    Join(Words(s), " ")
  }

  /** No white space at either end, and every white space character is a single
      ' ' between two characters that are not white space. */
  predicate SingleSpaced(r: string)
  {
    (r == [] || (!IsSpace(r[0]) && !IsSpace(r[|r| - 1])))
    && forall i :: 0 <= i < |r| ==> IsSpace(r[i]) ==> r[i] == ' ' && !IsSpace(r[i + 1])
  }

  /** Collapsing leaves the text single-spaced: trimmed, with no two spaces in a row. */
  lemma CollapseSpacesSingleSpaced(s: string)
    ensures SingleSpaced(CollapseSpaces(s))
  {
    JoinWordsSingleSpaced(Words(s));
  }

  /** Non-empty words without white space, joined with one space, are single-spaced. */
  lemma {:induction false} JoinWordsSingleSpaced(ws: seq<string>)
    requires forall k :: 0 <= k < |ws| ==> ws[k] != [] && NoSpace(ws[k])
    ensures SingleSpaced(Join(ws, " "))
    ensures ws != [] ==> Join(ws, " ") != []
  {
    if |ws| == 1 {
      var w := ws[0];
      assert Join(ws, " ") == w;
      assert !IsSpace(w[0]) && !IsSpace(w[|w| - 1]);
    } else if |ws| > 1 {
      var w := ws[0];
      JoinWordsSingleSpaced(ws[1..]);
      var rest := Join(ws[1..], " ");
      var r := w + " " + rest;
      assert Join(ws, " ") == r;
      assert r[0] == w[0] && r[|r| - 1] == rest[|rest| - 1];
      forall i | 0 <= i < |r| && IsSpace(r[i])
        ensures r[i] == ' ' && !IsSpace(r[i + 1])
      {
        if i == |w| {
          assert r[i + 1] == rest[0];
        } else if i > |w| {
          assert r[i] == rest[i - |w| - 1];
          assert r[i + 1] == rest[i - |w|];
        }
      }
    }
  }

  // ---------------------------------------------------------------------------
  // Sequences of strings

  /** Python's `s[:n]`. */
  function Take<T>(s: seq<T>, n: nat): (r: seq<T>)
    ensures |r| == if n < |s| then n else |s|
    ensures r == s[..|r|]
  {
    if n < |s| then s[..n] else s
  }

  // ---------------------------------------------------------------------------
  // Decimal numbers: Python's str(n) and int(s)

  function DigitChar(d: nat): (c: char)
    requires d < 10
    ensures IsDigit(c)
  {
    ('0' as int + d) as char
  }

  function DigitValue(c: char): (d: nat)
    requires IsDigit(c)
    ensures d < 10
  {
    c as int - '0' as int
  }

  /** Python's `str(n)` for a non-negative integer. */
  function NatToString(n: nat): (s: string)
    ensures AllDigits(s)
    ensures |s| > 1 ==> s[0] != '0'
  {
    if n < 10 then [DigitChar(n)] else NatToString(n / 10) + [DigitChar(n % 10)]
  }

  /** Python's `int(s)` on a string of digits. */
  function ParseNat(s: string): nat
    requires forall i :: 0 <= i < |s| ==> IsDigit(s[i])
  {
    if s == [] then 0 else ParseNat(s[..|s| - 1]) * 10 + DigitValue(s[|s| - 1])
  }

  /** Reading back a rendered number gives the number. */
  lemma {:induction false} ParseRendered(n: nat)
    ensures ParseNat(NatToString(n)) == n
  {
    if n >= 10 {
      var s := NatToString(n);
      assert s[..|s| - 1] == NatToString(n / 10);
      ParseRendered(n / 10);
    }
  }

  /** Python's `str(i)` for any integer. */
  function IntToString(i: int): (s: string)
    ensures |s| > 0
    ensures i >= 0 ==> AllDigits(s)
    ensures i < 0 ==> s[0] == '-' && AllDigits(s[1..])
  {
    if i < 0 then "-" + NatToString(-i) else NatToString(i)
  }

  /** Different integers are rendered differently, so `str(id)` is a faithful key. */
  lemma IntToStringInjective(a: int, b: int)
    requires IntToString(a) == IntToString(b)
    ensures a == b
  {
    if a >= 0 && b >= 0 {
      ParseRendered(a);
      ParseRendered(b);
    } else if a < 0 && b < 0 {
      assert NatToString(-a) == IntToString(a)[1..] == IntToString(b)[1..] == NatToString(-b);
      ParseRendered(-a);
      ParseRendered(-b);
    }
  }
}
