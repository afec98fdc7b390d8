/** How a typed name is held against the names of objects: src/string.c and the alias scan of src/match.c. */
module Aliases {
  import opened LockText
  import opened Names

  // ---- string_prefix and string_match ----

  predicate IsAlnum(c: char) {
    '0' <= c <= '9' || 'A' <= c <= 'Z' || 'a' <= c <= 'z'
  }

  predicate HasPrefix(s: string, prefix: string) {
    |prefix| <= |s| && SameName(s[..|prefix|], prefix)
  }

  /** Where string_match looks: at the very front, and where a run of letters and digits begins. */
  predicate WordAt(s: string, i: int) {
    0 <= i < |s| && (i == 0 || (IsAlnum(s[i]) && !IsAlnum(s[i - 1])))
  }

  ghost predicate SomeWordHasPrefix(s: string, sub: string) {
    sub != "" && exists i :: WordAt(s, i) && HasPrefix(s[i..], sub)
  }

  method StringPrefix(s: string, prefix: string) returns (r: bool)
    ensures r == HasPrefix(s, prefix)
    ensures r <==> |prefix| <= |s| && forall k :: 0 <= k < |prefix| ==> SameLetter(s[k], prefix[k])
  {
    if |prefix| <= |s| {
      SameNameIff(s[..|prefix|], prefix);
    }
    var i := 0;
    while i < |s| && i < |prefix| && Downcase(s[i]) == Downcase(prefix[i])
      invariant 0 <= i <= |s| && i <= |prefix| && SameName(s[..i], prefix[..i])
    {
      i := i + 1;
    }
    assert i == |prefix| ==> prefix[..i] == prefix;
    return i == |prefix|;
  }

  /** The first word with that prefix, or -1. */
  method StringMatch(src: string, sub: string) returns (at: int)
    ensures at >= 0 <==> SomeWordHasPrefix(src, sub)
    ensures at >= 0 ==> WordAt(src, at) && HasPrefix(src[at..], sub)
    ensures at >= 0 ==> forall j :: WordAt(src, j) && HasPrefix(src[j..], sub) ==> at <= j
  {
    if sub == "" {
      return -1;
    }
    var i := 0;
    while i < |src|
      invariant 0 <= i <= |src| && (i < |src| ==> WordAt(src, i))
      invariant forall j :: WordAt(src, j) && j < i ==> !HasPrefix(src[j..], sub)
    {
      var here := StringPrefix(src[i..], sub);
      if here {
        return i;
      }
      i := NextWord(src, i);
    }
    return -1;
  }

  method NextWord(s: string, i: nat) returns (k: nat)
    requires WordAt(s, i)
    ensures i < k <= |s| && (k < |s| ==> WordAt(s, k))
    ensures forall j :: i < j < k ==> !WordAt(s, j)
  {
    k := i;
    while k < |s| && IsAlnum(s[k])
      invariant i <= k <= |s| && forall j :: i <= j < k ==> IsAlnum(s[j])
    {
      k := k + 1;
    }
    ghost var end := k;
    while k < |s| && !IsAlnum(s[k])
      invariant end <= k <= |s| && forall j :: end <= j < k ==> !IsAlnum(s[j])
    {
      k := k + 1;
    }
  }

  // ---- The aliases of an exit ----

  const EXIT_DELIMITER := ';'

  /** The position of the first delimiter, or the length. */
  function Delimiter(s: string): (n: nat)
    ensures n <= |s| && (n < |s| ==> s[n] == EXIT_DELIMITER)
    ensures forall i :: 0 <= i < n ==> s[i] != EXIT_DELIMITER
  {
    if s == "" || s[0] == EXIT_DELIMITER then 0 else 1 + Delimiter(s[1..])
  }

  /** The parts between the delimiters, all but the first without their leading spaces. */
  function AliasesOf(s: string): (r: seq<string>)
    ensures r != []
    decreases |s|
  {
    var n := Delimiter(s);
    if n == |s| then [s] else [s[..n]] + AliasesOf(SkipSpace(s[n + 1..]))
  }

  predicate Blank(s: string) {
    forall i :: 0 <= i < |s| ==> IsSpace(s[i])
  }

  /** The same up to case, where the alias may have spaces behind it. */
  predicate Fits(alias: string, name: string) {
    HasPrefix(alias, name) && Blank(alias[|name|..])
  }

  /** The scan of match_exit from a given alias on. */
  predicate Answers(s: string, name: string)
    decreases |s|
  {
    s != "" &&
    var n := Delimiter(s);
    Fits(s[..n], name) || (n < |s| && Answers(SkipSpace(s[n + 1..]), name))
  }

  function Joined(names: seq<string>): string
    requires names != []
  {
    if |names| == 1 then names[0] else names[0] + [EXIT_DELIMITER] + Joined(names[1..])
  }

  /** An alias that survives being written between delimiters. */
  predicate IsAlias(name: string, first: bool) {
    EXIT_DELIMITER !in name && (first || name == "" || !IsSpace(name[0]))
  }

  lemma DelimiterAt(s: string, n: nat)
    requires n < |s| && s[n] == EXIT_DELIMITER && forall i :: 0 <= i < n ==> s[i] != EXIT_DELIMITER
    ensures Delimiter(s) == n
  {
    var d := Delimiter(s);
  }

  lemma JoinedTail(names: seq<string>, s: string)
    requires |names| > 1 && EXIT_DELIMITER !in names[0] && IsAlias(names[1], false)
    requires s == names[0] + [EXIT_DELIMITER] + Joined(names[1..])
    ensures var n := |names[0]|;
      Delimiter(s) == n < |s| && s[..n] == names[0] && SkipSpace(s[n + 1..]) == Joined(names[1..])
  {
    var n := |names[0]|;
    assert s[..n] == names[0];
    DelimiterAt(s, n);
    assert s[n + 1..] == Joined(names[1..]);
    assert |names| > 2 && names[1] == "" ==> Joined(names[1..])[0] == EXIT_DELIMITER;
  }

  /** Aliases written between delimiters are read back. */
  lemma {:induction false} AliasesOfJoined(names: seq<string>)
    requires names != [] && forall i :: 0 <= i < |names| ==> IsAlias(names[i], i == 0)
    ensures AliasesOf(Joined(names)) == names
  {
    AliasesOfJoinedFrom(names, true);
  }

  lemma {:induction false} AliasesOfJoinedFrom(names: seq<string>, first: bool)
    requires names != [] && forall i :: 0 <= i < |names| ==> IsAlias(names[i], first && i == 0)
    ensures AliasesOf(Joined(names)) == names
    decreases |names|
  {
    if |names| > 1 {
      JoinedTail(names, Joined(names));
      AliasesOfJoinedFrom(names[1..], false);
    } else {
      assert Delimiter(names[0]) == |names[0]|;
    }
  }

  ghost predicate Tried(a: seq<string>, i: int) {
    0 <= i < |a| && !(i == |a| - 1 && a[i] == "")
  }

  ghost predicate SomeFits(a: seq<string>, name: string) {
    exists i :: Tried(a, i) && Fits(a[i], name)
  }

  lemma FirstOrRest(x: string, b: seq<string>, name: string)
    requires b != []
    ensures SomeFits([x] + b, name) <==> Fits(x, name) || SomeFits(b, name)
  {
    var a := [x] + b;
    if Fits(x, name) {
      assert Tried(a, 0) && a[0] == x;
    }
    if SomeFits(b, name) {
      var i :| Tried(b, i) && Fits(b[i], name);
      assert Tried(a, i + 1) && a[i + 1] == b[i];
    }
    if SomeFits(a, name) {
      var i :| Tried(a, i) && Fits(a[i], name);
      assert i > 0 ==> Tried(b, i - 1) && b[i - 1] == a[i];
    }
  }

  lemma OnlyOne(x: string, name: string)
    ensures SomeFits([x], name) <==> x != "" && Fits(x, name)
  {
    assert Tried([x], 0) <==> x != "";
    assert [x][0] == x;
  }

  /** An exit answers to a name that fits an alias; only an empty last alias is not even tried. */
  lemma {:induction false} AnswersIff(s: string, name: string)
    ensures Answers(s, name) <==> exists i :: Tried(AliasesOf(s), i) && Fits(AliasesOf(s)[i], name)
    decreases |s|
  {
    var n := Delimiter(s);
    if n < |s| {
      var t := SkipSpace(s[n + 1..]);
      AnswersIff(t, name);
      FirstOrRest(s[..n], AliasesOf(t), name);
    } else {
      assert s[..n] == s;
      OnlyOne(s, name);
    }
    assert SomeFits(AliasesOf(s), name) <==> Answers(s, name);
  }

  /** A name that is not empty is answered to exactly when it fits an alias. */
  lemma AnswersToAlias(s: string, name: string)
    requires name != ""
    ensures Answers(s, name) <==> exists a :: a in AliasesOf(s) && Fits(a, name)
  {
    AnswersIff(s, name);
    var a := AliasesOf(s);
    if x :| x in a && Fits(x, name) {
      var i :| 0 <= i < |a| && a[i] == x;
      assert Tried(a, i);
    }
  }

  /** A name with a delimiter in it is never answered to. */
  lemma {:induction false} AliasesHaveNoDelimiter(s: string, a: string)
    requires a in AliasesOf(s)
    ensures EXIT_DELIMITER !in a
    decreases |s|
  {
    var n := Delimiter(s);
    if n < |s| && a != s[..n] {
      AliasesHaveNoDelimiter(SkipSpace(s[n + 1..]), a);
    }
  }

  method SkipBlanks(s: string, from: nat) returns (i: nat)
    requires from <= |s|
    ensures from <= i <= |s| && (forall k :: from <= k < i ==> IsSpace(s[k])) && (i < |s| ==> !IsSpace(s[i]))
    ensures s[i..] == SkipSpace(s[from..])
  {
    i := from;
    while i < |s| && IsSpace(s[i])
      invariant from <= i <= |s| && forall k :: from <= k < i ==> IsSpace(s[k])
      invariant SkipSpace(s[i..]) == SkipSpace(s[from..])
    {
      assert s[i..][1..] == s[i + 1..];
      i := i + 1;
    }
  }

  /** From p to the end of its alias s is blank exactly when the first thing that is not a space ends it. */
  lemma EndOfAlias(s: string, p: nat, end: nat, i: nat)
    requires p <= end <= |s| && p <= i <= |s|
    requires (end < |s| ==> s[end] == EXIT_DELIMITER) && forall k :: p <= k < end ==> s[k] != EXIT_DELIMITER
    requires (forall k :: p <= k < i ==> IsSpace(s[k])) && (i < |s| ==> !IsSpace(s[i]))
    ensures i <= end
    ensures Blank(s[p..end]) <==> i == |s| || s[i] == EXIT_DELIMITER
  {
    if p <= i < end {
      assert s[p..end][i - p] == s[i];
    }
  }

  /** How many characters of the name agree with the alias at start. */
  method Compare(s: string, start: nat, ghost end: nat, name: string) returns (p: nat)
    requires start <= end <= |s|
    requires (end < |s| ==> s[end] == EXIT_DELIMITER) && forall k :: start <= k < end ==> s[k] != EXIT_DELIMITER
    ensures p <= |name| && start + p <= end
    ensures p == |name| <==> HasPrefix(s[start..end], name)
  {
    ghost var a := s[start..end];
    p := 0;
    while p < |name| && start + p < |s| && Downcase(name[p]) == Downcase(s[start + p]) && s[start + p] != EXIT_DELIMITER
      invariant 0 <= p <= |name| && p <= |a|
      invariant forall k :: 0 <= k < p ==> Downcase(a[k]) == Downcase(name[k])
    {
      p := p + 1;
    }
    assert p < |a| ==> a[p] == s[start + p];
  }

  /** Compares one alias with the name; i is how far into s that went. */
  method TryAlias(s: string, start: nat, ghost end: nat, name: string) returns (found: bool, i: nat)
    requires start <= end <= |s|
    requires (end < |s| ==> s[end] == EXIT_DELIMITER) && forall k :: start <= k < end ==> s[k] != EXIT_DELIMITER
    ensures start <= i <= end
    ensures found == Fits(s[start..end], name)
  {
    var p := Compare(s, start, end, name);
    if p == |name| {
      i := SkipBlanks(s, start + p);
      EndOfAlias(s, start + p, end, i);
      assert s[start..end][p..] == s[start + p..end];
      return i == |s| || s[i] == EXIT_DELIMITER, i;
    }
    return false, start + p;
  }

  /** The alias that starts at m ends at the next delimiter, or with the string. */
  ghost function EndFrom(s: string, m: nat): (end: nat)
    requires m <= |s|
    ensures m <= end <= |s| && (end < |s| ==> s[end] == EXIT_DELIMITER)
    ensures forall k :: m <= k < end ==> s[k] != EXIT_DELIMITER
  {
    assert forall k :: m <= k < |s| ==> s[k] == s[m..][k - m];
    m + Delimiter(s[m..])
  }

  lemma Slices(s: string, m: nat, n: nat)
    requires m + n <= |s|
    ensures s[m..][..n] == s[m..m + n]
    ensures m + n < |s| ==> s[m..][n + 1..] == s[m + n + 1..]
  {
  }

  lemma AnswersFrom(s: string, m: nat, name: string)
    requires m < |s|
    ensures var end := EndFrom(s, m);
      if Fits(s[m..end], name) then Answers(s[m..], name)
      else Answers(s[m..], name) == (end < |s| && Answers(SkipSpace(s[end + 1..]), name))
  {
    Slices(s, m, Delimiter(s[m..]));
  }

  /** Tries the alias at m and, if it does not fit, finds the next. */
  method NextAlias(s: string, m: nat, name: string) returns (found: bool, m': nat)
    requires m < |s|
    ensures found ==> Answers(s[m..], name)
    ensures !found ==> m < m' <= |s| && Answers(s[m'..], name) == Answers(s[m..], name)
  {
    ghost var end := EndFrom(s, m);
    AnswersFrom(s, m, name);
    found, m' := TryAlias(s, m, end, name);
    if !found {
      m' := PastDelimiter(s, m', end);
      ghost var next := m';
      m' := SkipBlanks(s, m');
      assert next == |s| ==> m' == |s| && s[m'..] == "";
    }
  }

  /** The scan of match_exit over the name of one exit. */
  method ExitAnswers(s: string, name: string) returns (found: bool)
    ensures found == Answers(s, name)
  {
    var m := 0;
    assert s[m..] == s;
    while m < |s|
      invariant 0 <= m <= |s| && Answers(s[m..], name) == Answers(s, name)
      decreases |s| - m
    {
      found, m := NextAlias(s, m, name);
      if found {
        return;
      }
    }
    return false;
  }

  method PastDelimiter(s: string, from: nat, ghost end: nat) returns (i: nat)
    requires from <= end <= |s|
    requires (end < |s| ==> s[end] == EXIT_DELIMITER) && forall k :: from <= k < end ==> s[k] != EXIT_DELIMITER
    ensures i == if end < |s| then end + 1 else |s|
  {
    i := from;
    while i < |s|
      invariant from <= i <= end
    {
      i := i + 1;
      if s[i - 1] == EXIT_DELIMITER {
        return;
      }
    }
  }
}
