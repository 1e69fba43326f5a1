/** The rank system of `modules/cargos.py`: the configured rank roles, the visual
    prefixes that stand for them in nicknames, the nickname codec
    ("PREFIX | NAME | ID"), the staff check for the rank panel and the nickname
    builder that runs whenever a member's ranks change. */
module Cargos {
  import opened Text
  import opened Platform
  import opened Sorting

  // ---------------------------------------------------------------------------
  // Configuration

  /** PREFIXOS_VISUAIS: the visual prefixes from highest to lowest rank. */
  const VisualPrefixes: seq<string> :=
    ["00", "01", "02", "03", "G.Geral", "G.Farm", "G.Pista", "G.Rec",
     "Sup", "Rec", "Ceo E", "Sub E", "E", "M"]

  /** A configured rank role: its name and its role id. */
  datatype RankRole = RankRole(name: string, id: int)

  /** PREFIXO_PARA_CARGO composed with CARGOS_CONFIG: `RankRoles[k]` is the role that
      `VisualPrefixes[k]` stands for, with the id CARGOS_CONFIG gives its name. Both
      tables list their entries in the order of `VisualPrefixes`, and every name of
      PREFIXO_PARA_CARGO has an entry in CARGOS_CONFIG. */
  const RankRoles: seq<RankRole> := [
    RankRole("\U{1F451} | Lider | 00", 1474880677827579935),
    RankRole("\U{1F48E} | Lider | 01", 1474880748803723294),
    RankRole("\U{1F46E} | Lider | 02", 1474880750909128874),
    RankRole("\U{1F396}\U{FE0F} | Lider | 03", 1474880752566014156),
    RankRole("\U{1F396}\U{FE0F} | Gerente Geral", 1474880754214371539),
    RankRole("\U{1F396}\U{FE0F} | Gerente De Farm", 1474880755078533241),
    RankRole("\U{1F396}\U{FE0F} | Gerente De Pista", 1474880756026179825),
    RankRole("\U{1F396}\U{FE0F} | Gerente de Recrutamento", 1474880756433162353),
    RankRole("\U{1F396}\U{FE0F} | Supervisor", 1474880757385134130),
    RankRole("\U{1F396}\U{FE0F} | Recrutador", 1474880757984923708),
    RankRole("\U{1F396}\U{FE0F} | Ceo Elite", 1474881051569688656),
    RankRole("\U{1F396}\U{FE0F} | Sub Elite", 1474881053108731945),
    RankRole("\U{1F396}\U{FE0F} | Elite", 1474881054300180631),
    RankRole("\U{1F645}\U{200D}\U{2642}\U{FE0F} | Membro", 1474669904547549265)
  ]

  /** STAFF_PREFIXOS: the ranks allowed to use the rank panel (all but "E" and "M"). */
  const StaffPrefixes: seq<string> :=
    ["00", "01", "02", "03", "G.Geral", "G.Farm", "G.Pista", "G.Rec",
     "Sup", "Rec", "Ceo E", "Sub E"]

  /** The separator of the nickname segments. */
  const Separator: string := " | "

  /** NICKNAME_CONFIG: every prefix uses the template "{prefix} | {name} | {id}". */
  function Render(prefix: string, name: string, id: string): string
  {
    prefix + Separator + name + Separator + id
  }

  // ---------------------------------------------------------------------------
  // extrair_parte_nickname: the regular-expression passes

  /** `re.sub(r'\s*\([^)]*\)', '', s)`: every parenthesised group, together with
      the white space in front of it, is deleted; a '(' with no later ')' stays. */
  function RemoveParens(s: string): (r: string)
    ensures |r| <= |s|
    decreases |s|
  {
    if s == [] then []
    else
      var e := GroupEnd(s);
      if e < |s| then RemoveParens(s[e + 1..])
      else [s[0]] + RemoveParens(s[1..])
  }

  /** Where the group the text starts with ends: the index of the ')' closing a
      '(' that follows the leading white space, or `|s|` when there is none. */
  function GroupEnd(s: string): (e: nat)
    ensures e <= |s|
  {
    var w := LeadingSpaces(s);
    if w < |s| && s[w] == '(' then FindChar(s, ')', w + 1) else |s|
  }

  /** One step of the pass: skip a group, or keep the first character. */
  lemma RemoveParensStep(s: string)
    requires s != []
    ensures GroupEnd(s) < |s| ==> RemoveParens(s) == RemoveParens(s[GroupEnd(s) + 1..])
    ensures GroupEnd(s) == |s| ==> RemoveParens(s) == [s[0]] + RemoveParens(s[1..])
  {
  }

  /** The pass never makes up characters. */
  lemma {:induction false} RemoveParensKeepsOut(s: string, c: char)
    requires Lacks(s, c)
    ensures Lacks(RemoveParens(s), c)
    decreases |s|
  {
    if s != [] {
      var e := GroupEnd(s);
      if e < |s| {
        LacksSuffix(s, c, e + 1);
        RemoveParensKeepsOut(s[e + 1..], c);
      } else {
        LacksSuffix(s, c, 1);
        RemoveParensKeepsOut(s[1..], c);
      }
      KeepsOutStep(s, c);
    } else {
      assert RemoveParens(s) == [];
    }
  }

  /** The step of `RemoveParensKeepsOut`: what the pass leaves of the rest lacks
      `c`, and so does the first character it may keep. */
  lemma KeepsOutStep(s: string, c: char)
    requires s != [] && s[0] != c
    requires GroupEnd(s) < |s| ==> Lacks(RemoveParens(s[GroupEnd(s) + 1..]), c)
    requires GroupEnd(s) == |s| ==> Lacks(RemoveParens(s[1..]), c)
    ensures Lacks(RemoveParens(s), c)
  {
    RemoveParensStep(s);
    if GroupEnd(s) == |s| {
      LacksCons(s[0], RemoveParens(s[1..]), c);
    }
  }

  lemma LacksSuffix(s: string, c: char, i: nat)
    requires Lacks(s, c) && i <= |s|
    ensures Lacks(s[i..], c)
  {
    assert forall k :: 0 <= k < |s| - i ==> s[i..][k] == s[i + k];
  }

  lemma LacksCons(x: char, r: string, c: char)
    requires x != c && Lacks(r, c)
    ensures Lacks([x] + r, c)
  {
    assert forall k :: 1 <= k < |[x] + r| ==> ([x] + r)[k] == r[k - 1];
  }

  /** After the pass, no '(' is followed anywhere by a ')': no group is left. */
  lemma {:induction false} RemoveParensLeavesNoGroup(s: string)
    ensures forall i, j :: 0 <= i < j < |RemoveParens(s)| && RemoveParens(s)[i] == '(' ==> RemoveParens(s)[j] != ')'
    decreases |s|
  {
    if s != [] {
      var e := GroupEnd(s);
      if e < |s| {
        RemoveParensLeavesNoGroup(s[e + 1..]);
      } else {
        var rest := RemoveParens(s[1..]);
        RemoveParensLeavesNoGroup(s[1..]);
        if s[0] == '(' {
          assert Lacks(s[1..], ')');
          RemoveParensKeepsOut(s[1..], ')');
        }
        assert RemoveParens(s) == [s[0]] + rest;
      }
    }
  }

  /** A text without '(' has nothing for the pass to delete. */
  lemma {:induction false} RemoveParensNoop(s: string)
    requires Lacks(s, '(')
    ensures RemoveParens(s) == s
    decreases |s|
  {
    if s != [] {
      RemoveParensNoop(s[1..]);
      assert s == [s[0]] + s[1..];
    }
  }

  /** `t` matches `\s+\d+\s*` up to its end. */
  predicate IsTrailingNumber(t: string)
  {
    var a := LeadingSpaces(t);
    a >= 1 && LeadingDigits(t[a..]) >= 1
    && forall i :: a + LeadingDigits(t[a..]) <= i < |t| ==> IsSpace(t[i])
  }

  /** The leftmost position at or after `from` where `\s+\d+\s*$` matches, or `|s|`. */
  function TrailingNumberStart(s: string, from: nat): (r: nat)
    requires from <= |s|
    ensures from <= r <= |s|
    ensures r < |s| ==> IsTrailingNumber(s[r..])
    ensures forall j :: from <= j < r ==> !IsTrailingNumber(s[j..])
    decreases |s| - from
  {
    if from == |s| || IsTrailingNumber(s[from..]) then from
    else
      var r := TrailingNumberStart(s, from + 1);
      assert forall j :: from + 1 <= j < r ==> !IsTrailingNumber(s[j..]);
      r
  }

  /** `re.sub(r'\s+\d+\s*$', '', s)`: drops a number standing alone at the end. */
  function TrimTrailingNumber(s: string): (r: string)
    ensures |r| <= |s| && r == s[..|r|]
    ensures |r| < |s| ==> IsTrailingNumber(s[|r|..])
    ensures forall j :: 0 <= j < |r| ==> !IsTrailingNumber(s[j..])
  {
    s[..TrailingNumberStart(s, 0)]
  }

  /** The length of a match of `\s+\d+\s+` at the start of `s`, 0 when there is none.
      Every run is maximal: backing off any of them leaves no match. */
  function InnerNumberLen(s: string): (n: nat)
    ensures n <= |s|
  {
    var a := LeadingSpaces(s);
    if a == 0 then 0
    else
      var b := LeadingDigits(s[a..]);
      if b == 0 then 0
      else
        var c := LeadingSpaces(s[a + b..]);
        if c == 0 then 0 else a + b + c
  }

  /** `re.sub(r'\s+\d+\s+', ' ', s)`: a number standing alone between words becomes
      one space; scanning resumes after each replaced match. */
  function ReplaceInnerNumbers(s: string): (r: string)
    decreases |s|
  {
    if s == [] then []
    else if InnerNumberLen(s) > 0 then " " + ReplaceInnerNumbers(s[InnerNumberLen(s)..])
    else [s[0]] + ReplaceInnerNumbers(s[1..])
  }

  /** No digit of `s` comes right after white space. */
  predicate NoSpacedDigit(s: string)
  {
    forall i :: 0 < i < |s| && IsDigit(s[i]) ==> !IsSpace(s[i - 1])
  }

  lemma NoSpacedDigitNoNumber(t: string)
    requires NoSpacedDigit(t)
    ensures InnerNumberLen(t) == 0
    ensures !IsTrailingNumber(t)
  {
    var a := LeadingSpaces(t);
    if 1 <= a < |t| {
      assert IsSpace(t[a - 1]);
      assert !IsDigit(t[a]);
      assert t[a..][0] == t[a];
    }
  }

  lemma {:induction false} ReplaceInnerNumbersNoop(s: string)
    requires NoSpacedDigit(s)
    ensures ReplaceInnerNumbers(s) == s
    decreases |s|
  {
    if s != [] {
      NoSpacedDigitNoNumber(s);
      assert NoSpacedDigit(s[1..]) by {
        forall i | 0 < i < |s[1..]| && IsDigit(s[1..][i])
          ensures !IsSpace(s[1..][i - 1])
        {
          assert s[1..][i] == s[i + 1] && s[1..][i - 1] == s[i];
        }
      }
      ReplaceInnerNumbersNoop(s[1..]);
      assert s == [s[0]] + s[1..];
    }
  }

  lemma TrimTrailingNumberNoop(s: string)
    requires NoSpacedDigit(s)
    ensures TrimTrailingNumber(s) == s
  {
    forall j | 0 <= j < |s|
      ensures !IsTrailingNumber(s[j..])
    {
      assert NoSpacedDigit(s[j..]) by {
        forall i | 0 < i < |s[j..]| && IsDigit(s[j..][i])
          ensures !IsSpace(s[j..][i - 1])
        {
          assert s[j..][i] == s[j + i] && s[j..][i - 1] == s[j + i - 1];
        }
      }
      NoSpacedDigitNoNumber(s[j..]);
    }
  }

  /** A text without '(' that does not end in white space passes the parentheses
      pass unchanged, whatever follows it. */
  lemma {:induction false} RemoveParensPrefix(n: string, rest: string)
    requires Lacks(n, '(') && (n == [] || !IsSpace(n[|n| - 1]))
    ensures RemoveParens(n + rest) == n + RemoveParens(rest)
    decreases |n|
  {
    if n == [] {
      assert n + rest == rest;
    } else {
      var s := n + rest;
      NoGroupAt(n, rest);
      RemoveParensStep(s);
      assert s[1..] == n[1..] + rest;
      LacksSuffix(n, '(', 1);
      RemoveParensPrefix(n[1..], rest);
      assert n == [n[0]] + n[1..];
    }
  }

  /** Where the text starts inside such a prefix, no group starts. */
  lemma NoGroupAt(n: string, rest: string)
    requires n != [] && Lacks(n, '(') && !IsSpace(n[|n| - 1])
    ensures GroupEnd(n + rest) == |n + rest|
  {
    var s := n + rest;
    var w := LeadingSpaces(s);
    assert !IsSpace(s[|n| - 1]);
    assert w <= |n| - 1;
    assert s[w] == n[w];
  }

  /** A group in parentheses, with the space before it, is skipped whole. */
  lemma RemoveParensGroup(g: string, rest: string)
    requires Lacks(g, ')')
    ensures RemoveParens(" (" + g + ")" + rest) == RemoveParens(rest)
  {
    var s := " (" + g + ")" + rest;
    assert s[1..][0] == '(';
    assert LeadingSpaces(s) == 1;
    var e := FindChar(s, ')', 2);
    assert s[2 + |g|] == ')';
    forall j | 2 <= j < 2 + |g| ensures s[j] != ')' {
      assert s[j] == g[j - 2];
    }
    assert e == 2 + |g|;
    assert s[e + 1..] == rest;
  }

  /** A number after a space at the end of the text is what the trailing-number
      pass cuts, so it leaves the text before it. */
  lemma TrailingNumberAfter(n: string, d: string)
    requires n != [] && !IsSpace(n[|n| - 1]) && AllDigits(d)
    ensures TrimTrailingNumber(n + " " + d) == n
  {
    var s := n + " " + d;
    assert s[|n|..] == " " + d;
    assert s[|n|..][1..] == d;
    assert LeadingSpaces(s[|n|..]) == 1;
    assert LeadingDigits(d) == |d|;
    assert IsTrailingNumber(s[|n|..]);
    forall j | 0 <= j < |n| ensures !IsTrailingNumber(s[j..]) {
      var t := s[j..];
      var m := |n| - 1 - j;
      assert t[m] == n[|n| - 1] && t[m + 1] == ' ';
      assert t[|t| - 1] == d[|d| - 1];
    }
    var r := TrimTrailingNumber(s);
    assert |r| == |n|;
  }

  /** A text that ends in a character that is neither white space nor a digit has
      no trailing number to cut. */
  lemma NoTrailingNumber(s: string)
    requires s != [] && !IsSpace(s[|s| - 1]) && !IsDigit(s[|s| - 1])
    ensures TrimTrailingNumber(s) == s
  {
    forall j | 0 <= j < |s| ensures !IsTrailingNumber(s[j..]) {
      var t := s[j..];
      assert t[|t| - 1] == s[|s| - 1];
    }
  }

  /** A text with no digit after white space, that does not end in white space,
      passes the inner-number pass unchanged, whatever follows it. */
  lemma {:induction false} ReplaceInnerNumbersPrefix(n: string, rest: string)
    requires NoSpacedDigit(n) && (n == [] || !IsSpace(n[|n| - 1]))
    ensures ReplaceInnerNumbers(n + rest) == n + ReplaceInnerNumbers(rest)
    decreases |n|
  {
    if n == [] {
      assert n + rest == rest;
    } else {
      NoSpacedDigitTail(n);
      assert n[1..] == [] || n[1..][|n[1..]| - 1] == n[|n| - 1];
      ReplaceInnerNumbersPrefix(n[1..], rest);
      NoInnerNumberAt(n, rest);
      ReplaceInnerPrefixStep(n, rest);
    }
  }

  /** The step of `ReplaceInnerNumbersPrefix`: the first character is kept, and the
      rest of the prefix passes unchanged. */
  lemma ReplaceInnerPrefixStep(n: string, rest: string)
    requires n != [] && InnerNumberLen(n + rest) == 0
    requires ReplaceInnerNumbers(n[1..] + rest) == n[1..] + ReplaceInnerNumbers(rest)
    ensures ReplaceInnerNumbers(n + rest) == n + ReplaceInnerNumbers(rest)
  {
    ReplaceInnerKeep(n + rest);
    ConcatHeadTail(n, rest, ReplaceInnerNumbers(rest));
  }

  /** Taking the head off a concatenation with a non-empty front. */
  lemma ConcatHeadTail(n: string, rest: string, r: string)
    requires n != []
    ensures (n + rest)[0] == n[0] && (n + rest)[1..] == n[1..] + rest
    ensures [n[0]] + (n[1..] + r) == n + r
  {
  }

  /** Where no inner number starts, the pass keeps the first character. */
  lemma ReplaceInnerKeep(s: string)
    requires s != [] && InnerNumberLen(s) == 0
    ensures ReplaceInnerNumbers(s) == [s[0]] + ReplaceInnerNumbers(s[1..])
  {
  }

  lemma NoSpacedDigitTail(n: string)
    requires n != [] && NoSpacedDigit(n)
    ensures NoSpacedDigit(n[1..])
  {
    forall i | 0 < i < |n[1..]| && IsDigit(n[1..][i]) ensures !IsSpace(n[1..][i - 1]) {
      assert n[1..][i] == n[i + 1] && n[1..][i - 1] == n[i];
    }
  }

  /** Where the text starts inside such a prefix, no inner number starts. */
  lemma NoInnerNumberAt(n: string, rest: string)
    requires n != [] && NoSpacedDigit(n) && !IsSpace(n[|n| - 1])
    ensures InnerNumberLen(n + rest) == 0
  {
    var s := n + rest;
    var a := LeadingSpaces(s);
    assert !IsSpace(s[|n| - 1]);
    assert a <= |n| - 1;
    if a > 0 {
      assert IsSpace(s[a - 1]) && s[a - 1] == n[a - 1] && n[a] == s[a];
      assert !IsDigit(n[a]);
      assert s[a..][0] == s[a];
    }
  }

  /** A number standing alone between words is replaced by one space. */
  lemma ReplaceInnerNumber(a: string, d: string, b: string)
    requires NoSpacedDigit(a) && (a == [] || !IsSpace(a[|a| - 1]))
    requires AllDigits(d) && (b == [] || !IsSpace(b[0]))
    ensures ReplaceInnerNumbers(a + (" " + d + " " + b)) == a + " " + ReplaceInnerNumbers(b)
  {
    var t := " " + d + " " + b;
    ReplaceInnerNumbersPrefix(a, t);
    InnerNumberOf(d, b);
    assert ReplaceInnerNumbers(t) == " " + ReplaceInnerNumbers(t[2 + |d|..]);
    SpacedNumberRest(d, b);
    ConcatAssoc(a, " ", ReplaceInnerNumbers(b));
  }

  lemma ConcatAssoc(x: string, y: string, z: string)
    ensures x + (y + z) == x + y + z
  {
  }

  /** The parts of " d b" that the inner-number match reads. */
  lemma SpacedNumberRest(d: string, b: string)
    ensures (" " + d + " " + b)[1..] == d + " " + b
    ensures (" " + d + " " + b)[1 + |d|..] == " " + b
    ensures (" " + d + " " + b)[2 + |d|..] == b
    ensures (" " + b)[1..] == b
  {
  }

  /** " d b", with d a run of digits and b not starting with white space, starts
      with a match of `\s+\d+\s+` that covers the two spaces and d. */
  lemma InnerNumberOf(d: string, b: string)
    requires AllDigits(d) && (b == [] || !IsSpace(b[0]))
    ensures InnerNumberLen(" " + d + " " + b) == 2 + |d|
  {
    var t := " " + d + " " + b;
    SpacedNumberRest(d, b);
    var u := d + " " + b;
    assert u[0] == d[0] && !IsSpace(u[0]);
    assert LeadingSpaces(u) == 0;
    assert LeadingSpaces(t) == 1;
    assert u[|d|] == ' ';
    assert forall i :: 0 <= i < |d| ==> u[i] == d[i];
    LeadingDigitsOfRun(u, |d|);
    assert LeadingSpaces(" " + b) == 1 by {
      if b != [] { assert (" " + b)[1..][0] == b[0]; }
    }
  }

  /** A run of `k` digits followed by a non-digit is what `LeadingDigits` counts. */
  lemma {:induction false} LeadingDigitsOfRun(s: string, k: nat)
    requires k < |s| && !IsDigit(s[k])
    requires forall i :: 0 <= i < k ==> IsDigit(s[i])
    ensures LeadingDigits(s) == k
    decreases k
  {
    if k > 0 {
      assert forall i :: 0 <= i < k - 1 ==> s[1..][i] == s[i + 1];
      LeadingDigitsOfRun(s[1..], k - 1);
    }
  }

  // ---------------------------------------------------------------------------
  // extrair_parte_nickname

  /** The name part of a nickname: the middle segment of "PREFIX | NAME | ID", the
      first of "NAME | ID", the whole label otherwise; then groups in parentheses
      and standalone numbers are removed. Never empty: "User" stands in. */
  function ExtractName(nickname: string): (r: string)
    ensures r != []
    ensures nickname == [] ==> r == "User"
    ensures r == "User" || (!IsSpace(r[0]) && !IsSpace(r[|r| - 1]))
  {
    if nickname == [] then "User"
    else
      var parts := Split(nickname, Separator);
      var segment :=
        if |parts| >= 3 then Strip(parts[1])
        else if |parts| == 2 then Strip(parts[0])
        else Strip(nickname);
      CleanSegment(segment)
  }

  /** The clean-up of the chosen segment: groups in parentheses, then a trailing
      number, then inner numbers are removed, and the result is stripped; "User"
      stands in for nothing left. */
  function CleanSegment(segment: string): (r: string)
    ensures r != []
    ensures r == "User" || (!IsSpace(r[0]) && !IsSpace(r[|r| - 1]))
  {
    var cleaned := Strip(ReplaceInnerNumbers(TrimTrailingNumber(RemoveParens(segment))));
    if cleaned == [] then "User" else cleaned
  }

  /** A label with no '|' and no white space at either end is one segment, cleaned
      as it is. */
  lemma NameOfOneSegment(nick: string)
    requires nick != [] && Lacks(nick, '|') && !IsSpace(nick[0]) && !IsSpace(nick[|nick| - 1])
    ensures ExtractName(nick) == CleanSegment(nick)
  {
    SplitSingle(nick, Separator, 1);
    StripNoop(nick);
  }

  // ---------------------------------------------------------------------------
  // extrair_id_fivem

  /** `s[i..j]` is a match of `\b(\d+)\b`: a run of digits with no word character
      on either side. */
  predicate BoundedRun(s: string, i: int, j: int)
  {
    0 <= i < j <= |s|
    && (forall k :: i <= k < j ==> IsDigit(s[k]))
    && (i == 0 || !IsWordChar(s[i - 1]))
    && (j == |s| || !IsWordChar(s[j]))
  }

  /** A bounded run is the whole run of digits starting at its first position. */
  lemma BoundedRunEnd(s: string, i: int, j: int)
    requires BoundedRun(s, i, j)
    ensures j == i + LeadingDigits(s[i..])
  {
  }

  /** `re.findall(r'\b(\d+)\b', s)` from position `from` on, as (start, end) pairs:
      a match needs a digit with no word character before it, and the run of digits
      from there must not be followed by a word character; scanning resumes after
      a match, or one position further after a failed attempt. */
  function Runs(s: string, from: nat): seq<(nat, nat)>
    requires from <= |s|
    decreases |s| - from
  {
    if from == |s| then []
    else if IsDigit(s[from]) && (from == 0 || !IsWordChar(s[from - 1])) then
      var e := from + LeadingDigits(s[from..]);
      if e == |s| || !IsWordChar(s[e]) then [(from, e)] + Runs(s, e)
      else Runs(s, from + 1)
    else
      Runs(s, from + 1)
  }

  /** One step of `Runs` at a maximal run of digits starting at `from`. */
  lemma RunsAtRun(s: string, from: nat, e: nat)
    requires from < |s| && IsDigit(s[from]) && (from == 0 || !IsWordChar(s[from - 1]))
    requires e == from + LeadingDigits(s[from..])
    requires e == |s| || !IsWordChar(s[e])
    ensures Runs(s, from) == [(from, e)] + Runs(s, e)
  {
  }

  /** Every pair found is a match, at or after `from`, and the pairs come in order. */
  lemma {:induction false} RunsSound(s: string, from: nat)
    requires from <= |s|
    ensures forall k :: 0 <= k < |Runs(s, from)| ==> from <= Runs(s, from)[k].0 && BoundedRun(s, Runs(s, from)[k].0, Runs(s, from)[k].1)
    ensures forall k1, k2 :: 0 <= k1 < k2 < |Runs(s, from)| ==> Runs(s, from)[k1].0 < Runs(s, from)[k2].0
    decreases |s| - from
  {
    if from < |s| {
      var starts := IsDigit(s[from]) && (from == 0 || !IsWordChar(s[from - 1]));
      var e := from + LeadingDigits(s[from..]);
      if starts && (e == |s| || !IsWordChar(s[e])) {
        RunsAtRun(s, from, e);
        RunsSound(s, e);
        RunIsBounded(s, from, e);
        SoundCons(s, from, e, Runs(s, e));
      } else {
        RunsSkip(s, from);
        RunsSound(s, from + 1);
      }
    }
  }

  /** A match put before sound matches that start after it gives sound matches. */
  lemma SoundCons(s: string, from: nat, e: nat, rest: seq<(nat, nat)>)
    requires BoundedRun(s, from, e)
    requires forall k :: 0 <= k < |rest| ==> e <= rest[k].0 && BoundedRun(s, rest[k].0, rest[k].1)
    requires forall k1, k2 :: 0 <= k1 < k2 < |rest| ==> rest[k1].0 < rest[k2].0
    ensures forall k :: 0 <= k < |[(from, e)] + rest| ==>
      from <= ([(from, e)] + rest)[k].0 && BoundedRun(s, ([(from, e)] + rest)[k].0, ([(from, e)] + rest)[k].1)
    ensures forall k1, k2 :: 0 <= k1 < k2 < |[(from, e)] + rest| ==> ([(from, e)] + rest)[k1].0 < ([(from, e)] + rest)[k2].0
  {
    var all := [(from, e)] + rest;
    assert forall k :: 1 <= k < |all| ==> all[k] == rest[k - 1];
  }

  /** A maximal run of digits after a non-word character and before one is a match. */
  lemma RunIsBounded(s: string, from: nat, e: nat)
    requires from < |s| && IsDigit(s[from]) && (from == 0 || !IsWordChar(s[from - 1]))
    requires e == from + LeadingDigits(s[from..]) && (e == |s| || !IsWordChar(s[e]))
    ensures BoundedRun(s, from, e)
  {
    assert forall k :: from <= k < e ==> s[k] == s[from..][k - from];
  }

  /** The run of digits read from `from` on is made of word characters. */
  lemma DigitsFrom(s: string, from: nat)
    requires from < |s|
    ensures forall k :: from <= k < from + LeadingDigits(s[from..]) ==> IsWordChar(s[k])
  {
    forall k | from <= k < from + LeadingDigits(s[from..])
      ensures IsWordChar(s[k])
    {
      assert s[k] == s[from..][k - from];
    }
  }

  /** One step of `Runs` where no match starts at `from`. */
  lemma RunsSkip(s: string, from: nat)
    requires from < |s|
    requires !(IsDigit(s[from]) && (from == 0 || !IsWordChar(s[from - 1])))
             || (from + LeadingDigits(s[from..]) < |s| && IsWordChar(s[from + LeadingDigits(s[from..])]))
    ensures Runs(s, from) == Runs(s, from + 1)
  {
  }

  /** A run of digits from `from` ends before a non-word character at `i - 1`. */
  lemma RunStopsBefore(s: string, from: nat, i: nat)
    requires from < i <= |s| && !IsWordChar(s[i - 1])
    ensures from + LeadingDigits(s[from..]) < i
  {
    DigitsFrom(s, from);
  }

  /** A maximal run of digits starting at `i`, after a non-word character and before
      one, is found by a scan that starts at or before `i`. */
  lemma {:induction false} RunFound(s: string, from: nat, i: nat, j: nat)
    requires from <= i < j <= |s|
    requires IsDigit(s[i]) && (i == 0 || !IsWordChar(s[i - 1]))
    requires j == i + LeadingDigits(s[i..]) && (j == |s| || !IsWordChar(s[j]))
    ensures (i, j) in Runs(s, from)
    decreases |s| - from
  {
    var starts := IsDigit(s[from]) && (from == 0 || !IsWordChar(s[from - 1]));
    var e := from + LeadingDigits(s[from..]);
    if starts && (e == |s| || !IsWordChar(s[e])) {
      RunsAtRun(s, from, e);
      if i != from {
        RunStopsBefore(s, from, i);
        RunFound(s, e, i, j);
      }
    } else {
      assert i != from;
      RunsSkip(s, from);
      RunFound(s, from + 1, i, j);
    }
  }

  /** Every match at or after `from` is found. */
  lemma RunsComplete(s: string, from: nat, i: nat, j: nat)
    requires from <= i && BoundedRun(s, i, j)
    ensures (i, j) in Runs(s, from)
  {
    BoundedRunEnd(s, i, j);
    RunFound(s, from, i, j);
  }

  /** The id of a nickname: the last match of `\b(\d+)\b`, `None` when there is none. */
  function ExtractId(nickname: string): (r: Option<string>)
    ensures r.None? <==> forall i, j :: !BoundedRun(nickname, i, j)
    ensures r.Some? ==> AllDigits(r.value)
    ensures r.Some? ==> exists i, j :: (BoundedRun(nickname, i, j) && r.value == nickname[i..j]
      && forall i2, j2 :: BoundedRun(nickname, i2, j2) ==> i2 <= i)
  {
    if nickname == [] then None
    else
      var runs := Runs(nickname, 0);
      RunsSound(nickname, 0);
      assert forall i2, j2 :: BoundedRun(nickname, i2, j2) ==> (i2, j2) in runs by {
        forall i2, j2 | BoundedRun(nickname, i2, j2)
          ensures (i2, j2) in runs
        {
          RunsComplete(nickname, 0, i2, j2);
        }
      }
      if runs == [] then None
      else
        var (i, j) := runs[|runs| - 1];
        assert BoundedRun(nickname, i, j);
        Some(nickname[i..j])
  }

  // ---------------------------------------------------------------------------
  // extrair_prefixo_visual

  /** The first segment of the nickname, stripped, when it is a visual prefix. */
  function ExtractPrefix(nickname: string): (r: Option<string>)
    ensures r.Some? ==> r.value in VisualPrefixes
    ensures nickname == [] ==> r.None?
  {
    if nickname == [] then None
    else
      var p := Strip(Split(nickname, Separator)[0]);
      if p in VisualPrefixes then Some(p) else None
  }

  // ---------------------------------------------------------------------------
  // The codec round trip

  /** A name the builder can put in a label and read back unchanged. */
  predicate CleanName(n: string)
  {
    n != [] && Lacks(n, '|') && Lacks(n, '(')
    && !IsSpace(n[0]) && !IsSpace(n[|n| - 1])
    && NoSpacedDigit(n)
  }

  lemma SplitLabel(p: string, n: string, id: string)
    requires '|' !in p && '|' !in n && '|' !in id
    ensures Split(Render(p, n, id), Separator) == [p, n, id]
  {
    assert Separator[1] == '|' && Separator[0] != '|';
    assert Render(p, n, id) == p + Separator + (n + Separator + id);
    SplitCons(p, n + Separator + id, Separator, 1);
    SplitCons(n, id, Separator, 1);
    SplitSingle(id, Separator, 1);
  }

  /** No visual prefix contains '|' or starts or ends with white space. */
  lemma VisualPrefixesArePlain(p: string)
    requires p in VisualPrefixes
    ensures Lacks(p, '|') && p != [] && !IsSpace(p[0]) && !IsSpace(p[|p| - 1])
  {
  }

  /** A string of digits has no '|'. */
  lemma DigitsLackBar(id: string)
    requires AllDigits(id)
    ensures Lacks(id, '|')
  {
  }

  /** Reading a label built from a visual prefix, a clean name and a numeric id gives
      back the name. */
  lemma LabelNameRoundTrip(p: string, n: string, id: string)
    requires p in VisualPrefixes && CleanName(n) && AllDigits(id)
    ensures ExtractName(Render(p, n, id)) == n
  {
    VisualPrefixesArePlain(p);
    DigitsLackBar(id);
    SplitLabel(p, n, id);
    StripNoop(n);
    RemoveParensNoop(n);
    TrimTrailingNumberNoop(n);
    ReplaceInnerNumbersNoop(n);
  }

  /** Reading "NAME | ID" gives back the first segment, a clean name. */
  lemma NameOfTwoSegments(n: string, id: string)
    requires CleanName(n) && Lacks(id, '|')
    ensures ExtractName(n + Separator + id) == n
  {
    assert Separator[1] == '|' && Separator[0] != '|';
    SplitCons(n, id, Separator, 1);
    SplitSingle(id, Separator, 1);
    StripNoop(n);
    RemoveParensNoop(n);
    TrimTrailingNumberNoop(n);
    ReplaceInnerNumbersNoop(n);
  }

  /** A nick with no separator is read whole: a clean name comes back as it is. */
  lemma NameOfPlainLabel(n: string)
    requires CleanName(n)
    ensures ExtractName(n) == n
  {
    SplitSingle(n, Separator, 1);
    StripNoop(n);
    RemoveParensNoop(n);
    TrimTrailingNumberNoop(n);
    ReplaceInnerNumbersNoop(n);
  }

  /** The group in parentheses and the number after it are both removed:
      "Jane Doe (99) 12345" reads as "Jane Doe". */
  lemma NameDropsGroupAndNumber(n: string, g: string, d: string)
    requires CleanName(n) && Lacks(g, ')') && Lacks(g, '|') && AllDigits(d)
    ensures ExtractName(n + " (" + g + ") " + d) == n
  {
    GroupNickShape(n, g, d);
    NameOfOneSegment(n + " (" + g + ") " + d);
    CleanGroupAndNumber(n, g, d);
  }

  lemma CleanGroupAndNumber(n: string, g: string, d: string)
    requires CleanName(n) && Lacks(g, ')') && Lacks(g, '|') && AllDigits(d)
    ensures CleanSegment(n + " (" + g + ") " + d) == n
  {
    GroupNickShape(n, g, d);
    GroupRemoved(n, g, d);
    TrailingNumberAfter(n, d);
    ReplaceInnerNumbersNoop(n);
    StripNoop(n);
  }

  /** A three-segment label is read from its middle segment, stripped and cleaned. */
  lemma NameOfThreeSegments(p: string, mid: string, id: string)
    requires Lacks(p, '|') && Lacks(mid, '|') && Lacks(id, '|')
    ensures ExtractName(Render(p, mid, id)) == CleanSegment(Strip(mid))
  {
    SplitLabel(p, mid, id);
  }

  /** The worked example: "Sup | Jane Doe (99) 12345 | 77001" reads as "Jane Doe". */
  lemma ExampleLabelName()
    ensures ExtractName("Sup | Jane Doe (99) 12345 | 77001") == "Jane Doe"
  {
    var mid := "Jane Doe (99) 12345";
    ExampleLabelSplits();
    ExampleLabelLacks();
    ExampleNameIsClean();
    NameOfThreeSegments("Sup", mid, "77001");
    StripNoop(mid);
    CleanGroupAndNumber("Jane Doe", "99", "12345");
  }

  lemma ExampleLabelSplits()
    ensures "Sup | Jane Doe (99) 12345 | 77001" == Render("Sup", "Jane Doe (99) 12345", "77001")
    ensures "Jane Doe (99) 12345" == "Jane Doe" + " (" + "99" + ") " + "12345"
  {
  }

  lemma ExampleLabelLacks()
    ensures Lacks("Sup", '|') && Lacks("Jane Doe (99) 12345", '|') && Lacks("77001", '|')
    ensures Lacks("99", ')') && Lacks("99", '|') && AllDigits("12345")
  {
  }

  lemma ExampleNameIsClean()
    ensures CleanName("Jane Doe")
  {
  }


  lemma GroupRemoved(n: string, g: string, d: string)
    requires CleanName(n) && Lacks(g, ')') && AllDigits(d)
    ensures RemoveParens(n + (" (" + g + ")" + " " + d)) == n + " " + d
  {
    var sd := " " + d;
    var tail := (" (" + g + ")") + sd;
    ConcatAssoc(" (" + g + ")", " ", d);
    RemoveParensPrefix(n, tail);
    RemoveParensGroup(g, sd);
    SpacedDigitsLackParen(d);
    RemoveParensNoop(sd);
    ConcatAssoc(n, " ", d);
  }

  lemma SpacedDigitsLackParen(d: string)
    requires AllDigits(d)
    ensures Lacks(" " + d, '(')
  {
    forall k | 0 <= k < |" " + d| ensures (" " + d)[k] != '(' {
      if k > 0 { assert (" " + d)[k] == d[k - 1]; }
    }
  }

  lemma GroupNickShape(n: string, g: string, d: string)
    requires CleanName(n) && Lacks(g, '|') && AllDigits(d)
    ensures n + " (" + g + ") " + d == n + (" (" + g + ")" + " " + d)
    ensures var nick := n + " (" + g + ") " + d;
      nick != [] && Lacks(nick, '|') && !IsSpace(nick[0]) && !IsSpace(nick[|nick| - 1])
  {
    var nick := n + " (" + g + ") " + d;
    assert nick[0] == n[0] && nick[|nick| - 1] == d[|d| - 1];
    forall k | 0 <= k < |nick| ensures nick[k] != '|' {
      if k < |n| { assert nick[k] == n[k]; }
      else if |n| + 2 <= k < |n| + 2 + |g| { assert nick[k] == g[k - |n| - 2]; }
      else if |n| + 4 + |g| <= k { assert nick[k] == d[k - |n| - 4 - |g|]; }
    }
  }

  /** A number standing alone between two words is removed, with one of its spaces:
      "Jo 7 Silva" reads as "Jo Silva". */
  lemma NameDropsInnerNumber(a: string, d: string, b: string)
    requires CleanName(a) && AllDigits(d) && CleanName(b) && !IsDigit(b[|b| - 1])
    ensures ExtractName(a + " " + d + " " + b) == a + " " + b
  {
    var nick := a + " " + d + " " + b;
    InnerNickShape(a, d, b);
    NameOfOneSegment(nick);
    RemoveParensNoop(nick);
    NoTrailingNumber(nick);
    ReplaceInnerNumber(a, d, b);
    ReplaceInnerNumbersNoop(b);
    StripNoop(a + " " + b);
  }

  lemma InnerNickShape(a: string, d: string, b: string)
    requires CleanName(a) && AllDigits(d) && CleanName(b)
    ensures a + " " + d + " " + b == a + (" " + d + " " + b)
    ensures var nick := a + " " + d + " " + b;
      nick != [] && Lacks(nick, '|') && Lacks(nick, '(') && !IsSpace(nick[0])
      && nick[|nick| - 1] == b[|b| - 1]
    ensures var ab := a + " " + b; ab != [] && !IsSpace(ab[0]) && !IsSpace(ab[|ab| - 1])
  {
    var nick := a + " " + d + " " + b;
    assert nick[0] == a[0] && nick[|nick| - 1] == b[|b| - 1];
    forall k | 0 <= k < |nick| ensures nick[k] != '|' && nick[k] != '(' {
      if k < |a| { assert nick[k] == a[k]; }
      else if |a| + 1 <= k < |a| + 1 + |d| { assert nick[k] == d[k - |a| - 1]; }
      else if |a| + 2 + |d| <= k { assert nick[k] == b[k - |a| - 2 - |d|]; }
    }
    var ab := a + " " + b;
    assert ab[0] == a[0] && ab[|ab| - 1] == b[|b| - 1];
  }

  /** ... and the prefix. */
  lemma LabelPrefixRoundTrip(p: string, n: string, id: string)
    requires p in VisualPrefixes && CleanName(n) && AllDigits(id)
    ensures ExtractPrefix(Render(p, n, id)) == Some(p)
  {
    VisualPrefixesArePlain(p);
    DigitsLackBar(id);
    SplitLabel(p, n, id);
    StripNoop(p);
  }

  /** The prefix is read from the first segment alone: what follows the first " | "
      does not matter, and a first segment that is not a visual prefix gives none. */
  lemma PrefixIsFirstSegment(a: string, rest: string)
    requires Lacks(a, '|')
    ensures ExtractPrefix(a + Separator + rest) == (if Strip(a) in VisualPrefixes then Some(Strip(a)) else None)
  {
    assert Separator[1] == '|' && Separator[0] != '|';
    SplitCons(a, rest, Separator, 1);
  }

  /** A digit run at the very end of a text, after a non-word character, is the last
      match of `\b(\d+)\b`. */
  lemma IdAtEnd(s: string, id: string)
    requires AllDigits(id) && |id| < |s| && s[|s| - |id|..] == id
    requires !IsWordChar(s[|s| - |id| - 1])
    ensures ExtractId(s) == Some(id)
  {
    var start := |s| - |id|;
    assert forall k :: start <= k < |s| ==> s[k] == id[k - start];
    assert BoundedRun(s, start, |s|);
    var r := ExtractId(s);
    var i, j :| BoundedRun(s, i, j) && r.value == s[i..j]
      && forall i2, j2 :: BoundedRun(s, i2, j2) ==> i2 <= i;
    assert start <= i;
    assert forall k :: start <= k < |s| ==> IsWordChar(s[k]);
    assert i == start;
    BoundedRunEnd(s, i, j);
    BoundedRunEnd(s, start, |s|);
    assert j == |s|;
    assert r.value == id;
  }

  /** ... and the id. */
  lemma LabelIdRoundTrip(p: string, n: string, id: string)
    requires AllDigits(id)
    ensures ExtractId(Render(p, n, id)) == Some(id)
  {
    var s := Render(p, n, id);
    assert s[|s| - |id|..] == id;
    assert s[|s| - |id| - 1] == ' ';
    IdAtEnd(s, id);
  }

  /** The id of the label used as an example of the format. */
  lemma ExampleLabelId()
    ensures ExtractId("Sup | Jane Doe (99) 12345 | 77001") == Some("77001")
  {
    var s := "Sup | Jane Doe (99) 12345 | 77001";
    assert s[28..] == "77001";
    IdAtEnd(s, "77001");
  }

  // ---------------------------------------------------------------------------
  // Prefix and role lookups

  /** `get_cargo_por_prefixo`: the guild role configured for a prefix, if the guild has it. */
  function GetCargoPorPrefixo(guildRoles: seq<Role>, prefix: string): (r: Option<Role>)
    ensures prefix !in VisualPrefixes ==> r.None?
    ensures r.Some? ==> r.value in guildRoles
    ensures r.Some? ==> exists k :: (0 <= k < |VisualPrefixes| && VisualPrefixes[k] == prefix
      && RankRoles[k].id == r.value.id)
    ensures forall k :: 0 <= k < |VisualPrefixes| && VisualPrefixes[k] == prefix && RankRoles[k].id != 0 ==>
      r == FindRole(guildRoles, RankRoles[k].id)
  {
    if prefix !in VisualPrefixes then None
    else
      var k := IndexOf(VisualPrefixes, prefix, 0);
      VisualPrefixesDistinct();
      var id := RankRoles[k].id;
      if id != 0 then FindRole(guildRoles, id) else None
  }

  /** No prefix is listed twice, so a prefix names one rank. */
  lemma VisualPrefixesDistinct()
    ensures forall i, j :: 0 <= i < j < |VisualPrefixes| ==> VisualPrefixes[i] != VisualPrefixes[j]
  {
  }

  /** A guild that has the role configured for rank k gets it back from the rank's
      prefix: the first guild role with that id. */
  lemma ConfiguredRoleFound(guildRoles: seq<Role>, k: nat, j: nat)
    requires k < |VisualPrefixes| && j < |guildRoles| && guildRoles[j].id == RankRoles[k].id
    ensures var r := GetCargoPorPrefixo(guildRoles, VisualPrefixes[k]);
      r.Some? && r.value.id == RankRoles[k].id && r.value in guildRoles
  {
    assert RankRoles[k].id != 0;
  }

  /** The first position at or after `from` holding `x` (a dict lookup by key on the
      prefix table). */
  function IndexOf<T(==)>(xs: seq<T>, x: T, from: nat): (k: nat)
    requires from <= |xs| && x in xs[from..]
    ensures from <= k < |xs| && xs[k] == x
    decreases |xs| - from
  {
    if xs[from] == x then from
    else
      assert x in xs[from + 1..] by {
        var j :| from <= j < |xs| && xs[j] == x;
        assert xs[from + 1..][j - from - 1] == x;
      }
      IndexOf(xs, x, from + 1)
  }

  /** A role stands for the k-th prefix when its name is the configured role name,
      or its id the configured role id. */
  predicate RoleMatches(role: Role, k: nat)
    requires k < |RankRoles|
  {
    role.name == RankRoles[k].name || role.id == RankRoles[k].id
  }

  /** `get_prefixo_por_cargo`, scanning the prefix table from entry `from`. */
  function PrefixFrom(role: Role, from: nat): (r: Option<nat>)
    requires from <= |RankRoles|
    ensures r.Some? ==> from <= r.value < |RankRoles| && RoleMatches(role, r.value)
    ensures r.Some? ==> forall k :: from <= k < r.value ==> !RoleMatches(role, k)
    ensures r.None? ==> forall k :: from <= k < |RankRoles| ==> !RoleMatches(role, k)
    decreases |RankRoles| - from
  {
    if from == |RankRoles| then None
    else if RoleMatches(role, from) then Some(from)
    else PrefixFrom(role, from + 1)
  }

  /** `get_prefixo_por_cargo`: the first prefix, in table order, the role stands for. */
  function GetPrefixoPorCargo(role: Role): (r: Option<string>)
    ensures r.Some? ==> r.value in VisualPrefixes
  {
    match PrefixFrom(role, 0)
    case None => None
    case Some(k) => Some(VisualPrefixes[k])
  }

  /** A role with the configured id of a prefix maps back to that prefix, unless its
      name is the configured name of a higher rank: the configured ids are distinct. */
  lemma PrefixOfConfiguredRole(k: nat, name: string, position: int)
    requires k < |VisualPrefixes|
    requires forall a :: 0 <= a < k ==> RankRoles[a].name != name
    ensures GetPrefixoPorCargo(Role(RankRoles[k].id, name, position)) == Some(VisualPrefixes[k])
  {
    var role := Role(RankRoles[k].id, name, position);
    assert forall a :: 0 <= a < k ==> RankRoles[a].id != RankRoles[k].id;
    assert forall a :: 0 <= a < k ==> !RoleMatches(role, a);
    assert RoleMatches(role, k);
    var r := PrefixFrom(role, 0);
    assert r.Some? && r.value == k;
  }

  // ---------------------------------------------------------------------------
  // usuario_pode_usar_painel

  /** A role that maps to a staff prefix. */
  predicate IsStaffRole(role: Role)
  {
    var p := GetPrefixoPorCargo(role);
    p.Some? && p.value in StaffPrefixes
  }

  /** Who may use the rank panel: administrators, and holders of a staff-rank role. */
  predicate CanUsePanel(m: Option<Member>)
  {
    m.Some? && (m.value.isAdmin || exists k :: 0 <= k < |m.value.roles| && IsStaffRole(m.value.roles[k]))
  }

  /** The Elite and Member ranks never open the panel. */
  lemma EliteAndMemberAreNotStaff(role: Role)
    requires GetPrefixoPorCargo(role) == Some("E") || GetPrefixoPorCargo(role) == Some("M")
    ensures !IsStaffRole(role)
  {
  }

  /** `usuario_pode_usar_painel`: an early-return scan of the member's roles. */
  method UsuarioPodeUsarPainel(m: Option<Member>) returns (ok: bool)
    ensures ok == CanUsePanel(m)
  {
    if m.None? {
      return false;
    }
    var member := m.value;
    if member.isAdmin {
      return true;
    }
    var i := 0;
    while i < |member.roles|
      invariant 0 <= i <= |member.roles|
      invariant forall k :: 0 <= k < i ==> !IsStaffRole(member.roles[k])
    {
      if IsStaffRole(member.roles[i]) {
        return true;
      }
      i := i + 1;
    }
    return false;
  }

  // ---------------------------------------------------------------------------
  // atualizar_nickname (the label it builds)

  function Position(r: Role): int { r.position }

  /** The prefix of the first role, in the given order, that maps to a prefix; "M"
      when none does. */
  function FirstMappedPrefix(roles: seq<Role>): (p: string)
    ensures p in VisualPrefixes
  {
    if roles == [] then "M"
    else match GetPrefixoPorCargo(roles[0])
      case Some(q) => q
      case None => FirstMappedPrefix(roles[1..])
  }

  /** The visual prefix of a member: that of its highest role with a prefix. */
  function HighestPrefix(roles: seq<Role>): (p: string)
  {
    FirstMappedPrefix(SortDesc(roles, Position))
  }

  predicate HasPrefix(r: Role) { GetPrefixoPorCargo(r).Some? }

  /** In a list sorted by position, the first role with a prefix is a highest one. */
  lemma {:induction false} FirstMappedIsHighest(s: seq<Role>)
    requires SortedDesc(s, Position)
    ensures (forall r :: r in s ==> !HasPrefix(r)) ==> FirstMappedPrefix(s) == "M"
    ensures (exists r :: r in s && HasPrefix(r)) ==>
      exists r :: r in s && GetPrefixoPorCargo(r) == Some(FirstMappedPrefix(s))
        && forall o :: o in s && HasPrefix(o) ==> o.position <= r.position
  {
    if s != [] {
      var t := s[1..];
      assert SortedDesc(t, Position);
      FirstMappedIsHighest(t);
      assert forall r :: r in s <==> r == s[0] || r in t;
      if HasPrefix(s[0]) {
        assert FirstMappedPrefix(s) == GetPrefixoPorCargo(s[0]).value;
        forall o | o in s
          ensures o.position <= s[0].position
        {
          SortedFirstIsMax(s, Position, o);
        }
      } else {
        assert FirstMappedPrefix(s) == FirstMappedPrefix(t);
      }
    }
  }

  /** The prefix is "M" when no role maps to a prefix; otherwise it is the prefix of a
      role the member holds whose position no other role with a prefix exceeds. */
  lemma HighestPrefixIsHighest(roles: seq<Role>)
    ensures (forall r :: r in roles ==> !HasPrefix(r)) ==> HighestPrefix(roles) == "M"
    ensures (exists r :: r in roles && HasPrefix(r)) ==>
      exists r :: r in roles && GetPrefixoPorCargo(r) == Some(HighestPrefix(roles))
        && forall o :: o in roles && HasPrefix(o) ==> o.position <= r.position
  {
    var s := SortDesc(roles, Position);
    assert forall r :: r in s <==> r in roles by {
      assert forall r :: r in s <==> r in multiset(s);
      assert forall r :: r in roles <==> r in multiset(roles);
    }
    FirstMappedIsHighest(s);
  }

  /** `re.sub(r'[^\w\s]', '', s)` keeps word characters and white space. */
  predicate IsWordOrSpace(c: char) { IsWordChar(c) || IsSpace(c) }

  predicate NotBlank(c: char) { c != ' ' }

  /** The 32-character ladder: the full label; else the label with the name cut to
      15 characters; else that label without spaces, cut to 32 characters. */
  function FitLabel(prefix: string, name: string, id: string): (r: string)
    ensures |r| <= 32
    ensures |Render(prefix, name, id)| <= 32 ==> r == Render(prefix, name, id)
    ensures |Render(prefix, name, id)| > 32 && |Render(prefix, Take(name, 15), id)| <= 32 ==>
      r == Render(prefix, Take(name, 15), id)
    ensures |Render(prefix, name, id)| > 32 && |Render(prefix, Take(name, 15), id)| > 32 ==>
      r == Take(Filter(Render(prefix, Take(name, 15), id), NotBlank), 32)
      && forall i :: 0 <= i < |r| ==> r[i] != ' '
  {
    var full := Render(prefix, name, id);
    if |full| <= 32 then full
    else
      var short := Render(prefix, Take(name, 15), id);
      if |short| <= 32 then short
      else Take(Filter(short, NotBlank), 32)
  }

  /** The id placed in the new label: the label's id, or "000000". */
  function IdFor(m: Member): (r: string)
    ensures AllDigits(r)
  {
    match ExtractId(CurrentLabel(m))
    case Some(id) => id
    case None => "000000"
  }

  /** The name placed in the new label. */
  function NameFor(m: Member): (r: string)
    ensures forall i :: 0 <= i < |r| ==> r[i] == ' ' || IsWordChar(r[i])
    ensures SingleSpaced(r)
  {
    var n := ExtractName(CurrentLabel(m));
    var n2 := if n == [] || n == "User" then Split(m.name, "#")[0] else n;
    CollapseNameSpaces(Filter(n2, IsWordOrSpace))
  }

  /** `' '.join(s.split())` on a text of word characters and white space. */
  function CollapseNameSpaces(s: string): (r: string)
    requires forall i :: 0 <= i < |s| ==> IsWordOrSpace(s[i])
    ensures forall i :: 0 <= i < |r| ==> r[i] == ' ' || IsWordChar(r[i])
    ensures SingleSpaced(r)
  {
    var ws := Words(s);
    WordsFromText(s);
    JoinWordChars(ws);
    CollapseSpacesSingleSpaced(s);
    CollapseSpaces(s)
  }

  /** A word made of word characters only. */
  predicate WordChars(w: string) { forall i :: 0 <= i < |w| ==> IsWordChar(w[i]) }

  /** Every word of `s` is made of characters of `s`. */
  lemma {:induction false} WordsFromText(s: string)
    requires forall i :: 0 <= i < |s| ==> IsWordOrSpace(s[i])
    ensures forall k :: 0 <= k < |Words(s)| ==> WordChars(Words(s)[k])
    decreases |s|
  {
    if StripLeft(s) != [] {
      FirstWordFromText(s);
      var t := StripLeft(s);
      var n := SpanLen(t, NotSpace);
      WordsFromText(t[n..]);
      WordsUnfold(s);
      WordCharsCons(t[..n], Words(t[n..]));
    } else {
      assert Words(s) == [];
    }
  }

  /** The first word of such a text is word characters, and the text after it is
      still word characters and white space. */
  lemma FirstWordFromText(s: string)
    requires forall i :: 0 <= i < |s| ==> IsWordOrSpace(s[i])
    requires StripLeft(s) != []
    ensures WordChars(StripLeft(s)[..SpanLen(StripLeft(s), NotSpace)])
    ensures var u := StripLeft(s)[SpanLen(StripLeft(s), NotSpace)..];
      |u| < |s| && forall i :: 0 <= i < |u| ==> IsWordOrSpace(u[i])
  {
    var d := LeadingSpaces(s);
    var t := StripLeft(s);
    assert t == s[d..];
    var n := SpanLen(t, NotSpace);
    assert NotSpace(t[0]) by { assert t[0] == s[d]; }
    assert 0 < n;
    forall i | 0 <= i < n
      ensures IsWordChar(t[..n][i])
    {
      assert t[..n][i] == s[d + i];
    }
    var u := t[n..];
    forall i | 0 <= i < |u|
      ensures IsWordOrSpace(u[i])
    {
      assert u[i] == s[d + n + i];
    }
  }

  lemma WordCharsCons(w: string, rest: seq<string>)
    requires WordChars(w)
    requires forall k :: 0 <= k < |rest| ==> WordChars(rest[k])
    ensures forall k :: 0 <= k < |[w] + rest| ==> WordChars(([w] + rest)[k])
  {
    var ws := [w] + rest;
    assert forall k :: 1 <= k < |ws| ==> ws[k] == rest[k - 1];
  }

  lemma {:induction false} JoinWordChars(ws: seq<string>)
    requires forall k :: 0 <= k < |ws| ==> WordChars(ws[k])
    ensures forall i :: 0 <= i < |Join(ws, " ")| ==> Join(ws, " ")[i] == ' ' || IsWordChar(Join(ws, " ")[i])
  {
    if |ws| > 1 {
      JoinWordChars(ws[1..]);
      var rest := Join(ws[1..], " ");
      assert Join(ws, " ") == ws[0] + " " + rest;
      forall i | 0 <= i < |Join(ws, " ")|
        ensures Join(ws, " ")[i] == ' ' || IsWordChar(Join(ws, " ")[i])
      {
        if i < |ws[0]| {
          assert Join(ws, " ")[i] == ws[0][i];
        } else if i > |ws[0]| {
          assert Join(ws, " ")[i] == rest[i - |ws[0]| - 1];
        }
      }
    }
  }

  /** The label `atualizar_nickname` computes for a member. */
  function NewNickname(m: Member): string
  {
    FitLabel(HighestPrefix(m.roles), NameFor(m), IdFor(m))
  }

  /** The name and id parts of `atualizar_nickname`: read from the current label,
      with the account name (before any "#") when the label's name is empty or
      "User", cleaned of other than word characters and white space. */
  method LabelParts(m: Member) returns (name: string, idText: string)
    ensures name == NameFor(m) && idText == IdFor(m)
  {
    var current := if m.nick.Some? && m.nick.value != [] then m.nick.value else m.name;
    name := ExtractName(current);
    var id := ExtractId(current);
    idText := if id.Some? then id.value else "000000";
    if name == [] || name == "User" {
      name := Split(m.name, "#")[0];
    }
    name := Filter(name, IsWordOrSpace);
    name := CollapseNameSpaces(name);
  }

  /** The prefix loop of `atualizar_nickname`: the roles from the highest position
      down, stopping at the first with a prefix. */
  method PrefixLoop(roles: seq<Role>) returns (prefix: string)
    ensures prefix == HighestPrefix(roles)
  {
    prefix := "M";
    var sorted := SortDesc(roles, Position);
    var i := 0;
    while i < |sorted|
      invariant 0 <= i <= |sorted|
      invariant prefix == "M"
      invariant FirstMappedPrefix(sorted[i..]) == FirstMappedPrefix(sorted)
    {
      var p := GetPrefixoPorCargo(sorted[i]);
      if p.Some? {
        prefix := p.value;
        break;
      }
      assert sorted[i..][1..] == sorted[i + 1..];
      i := i + 1;
    }
  }

  /** The 32-character ladder of `atualizar_nickname`, step by step. */
  method FitLoop(prefix: string, name: string, idText: string) returns (nick: string)
    ensures nick == FitLabel(prefix, name, idText)
  {
    nick := Render(prefix, name, idText);
    if |nick| > 32 {
      var shortName := Take(name, 15);
      nick := Render(prefix, shortName, idText);
      if |nick| > 32 {
        nick := Filter(nick, NotBlank);
        nick := Take(nick, 32);
      }
    }
  }

  /** `atualizar_nickname`: computes the new label (when the bot may manage
      nicknames) and applies it when it differs from the current nickname.
      `editOk` is whether the platform accepted `member.edit`. */
  method AtualizarNickname(m: Member, botCanManage: bool, editOk: bool) returns (changed: bool, newNick: Option<string>)
    ensures !botCanManage ==> newNick.None?
    ensures botCanManage ==> newNick == Some(NewNickname(m))
    ensures newNick.Some? ==> |newNick.value| <= 32
    ensures changed <==> botCanManage && m.nick != newNick && editOk
  {
    if !botCanManage {
      return false, None;
    }
    var name, idText := LabelParts(m);
    var prefix := PrefixLoop(m.roles);
    var nick := FitLoop(prefix, name, idText);
    newNick := Some(nick);
    changed := m.nick != newNick && editOk;
  }
}
