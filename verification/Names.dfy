/** Case-insensitive names: src/string.c, the name checks of src/predicates.c and the hash of src/player_list.c. */
module Names {

  function Downcase(c: char): char {
    if 'A' <= c <= 'Z' then c + 32 as char else c
  }

  /** What string_compare(a, b) == 0 means. */
  predicate SameName(a: string, b: string) {
    |a| == |b| && forall i :: 0 <= i < |a| ==> Downcase(a[i]) == Downcase(b[i])
  }

  /** The same character, or a capital and its small letter, 32 apart. */
  predicate SameLetter(c: char, d: char) {
    || c == d
    || ('A' <= c <= 'Z' && d as int == c as int + 32)
    || ('A' <= d <= 'Z' && c as int == d as int + 32)
  }

  predicate Respells(a: string, b: string) {
    |a| == |b| && forall i :: 0 <= i < |a| ==> SameLetter(a[i], b[i])
  }

  /** Equal up to case is equal letter by letter, capital or small. */
  lemma SameNameIff(a: string, b: string)
    ensures SameName(a, b) <==> Respells(a, b)
  {
    if Respells(a, b) {
      forall i | 0 <= i < |a| ensures Downcase(a[i]) == Downcase(b[i]) {
        assert SameLetter(a[i], b[i]);
      }
    }
    if SameName(a, b) {
      forall i | 0 <= i < |a| ensures SameLetter(a[i], b[i]) {
        assert Downcase(a[i]) == Downcase(b[i]);
      }
    }
  }

  lemma SameNameTransitive(a: string, b: string, c: string)
    requires SameName(a, b) && SameName(b, c)
    ensures SameName(a, c) && SameName(b, a)
  {
  }

  /** The character at i, or the terminating NUL. */
  function At(s: string, i: nat): char {
    if i < |s| then s[i] else '\0'
  }

  method StringCompare(s1: string, s2: string) returns (d: int)
    requires '\0' !in s1 && '\0' !in s2
    ensures d == 0 <==> SameName(s1, s2)
    ensures d == 0 <==> Respells(s1, s2)
  {
    SameNameIff(s1, s2);
    var i := 0;
    while i < |s1| && i < |s2| && Downcase(s1[i]) == Downcase(s2[i])
      invariant 0 <= i <= |s1| && i <= |s2|
      invariant forall k :: 0 <= k < i ==> Downcase(s1[k]) == Downcase(s2[k])
    {
      i := i + 1;
    }
    d := Downcase(At(s1, i)) as int - Downcase(At(s2, i)) as int;
    assert i < |s1| ==> s1[i] in s1;
    assert i < |s2| ==> s2[i] in s2;
  }

  // ---- The hash ----

  const PLAYER_LIST_SIZE := 4096

  /** The random table of init_hft. */
  predicate IsTable(table: seq<bv32>) {
    |table| == 256 && forall i :: 0 <= i < 256 ==> table[i] < 4096
  }

  function HashStep(table: seq<bv32>, hash: bv32, c: char): (r: bv32)
    requires IsTable(table)
    ensures hash < 4096 ==> r < 4096
  {
    hash ^ ((hash >> 1) ^ table[Downcase(c) as int % 256])
  }

  function HashFrom(table: seq<bv32>, hash: bv32, s: string): (r: bv32)
    requires IsTable(table)
    ensures hash < 4096 ==> r < 4096
    decreases |s|
  {
    if s == "" then hash else HashFrom(table, HashStep(table, hash, s[0]), s[1..])
  }

  /** hash_function: always the number of a bucket. */
  function Hash(table: seq<bv32>, s: string): (r: nat)
    requires IsTable(table)
    ensures r < PLAYER_LIST_SIZE
  {
    HashFrom(table, 0, s) as nat
  }

  lemma HashStepSame(table: seq<bv32>, hash: bv32, c: char, d: char)
    requires IsTable(table) && Downcase(c) == Downcase(d)
    ensures HashStep(table, hash, c) == HashStep(table, hash, d)
  {
  }

  lemma SameTail(a: string, b: string)
    requires SameName(a, b) && a != ""
    ensures b != "" && Downcase(a[0]) == Downcase(b[0]) && SameName(a[1..], b[1..])
  {
  }

  lemma {:induction false} HashFromSame(table: seq<bv32>, hash: bv32, a: string, b: string)
    requires IsTable(table) && SameName(a, b)
    ensures HashFrom(table, hash, a) == HashFrom(table, hash, b)
    decreases |a|
  {
    if a != "" {
      SameTail(a, b);
      HashStepSame(table, hash, a[0], b[0]);
      HashFromSame(table, HashStep(table, hash, a[0]), a[1..], b[1..]);
    }
  }

  /** Names equal up to case fall into the same bucket. */
  lemma SameNameSameHash(table: seq<bv32>, a: string, b: string)
    requires IsTable(table) && SameName(a, b)
    ensures Hash(table, a) == Hash(table, b)
  {
    HashFromSame(table, 0, a, b);
  }

  method HashFunction(table: seq<bv32>, s: string) returns (hash: bv32)
    requires IsTable(table)
    ensures hash < 4096 && hash as nat == Hash(table, s)
  {
    hash := 0;
    var i := 0;
    while i < |s|
      invariant 0 <= i <= |s| && hash < 4096
      invariant HashFrom(table, hash, s[i..]) == HashFrom(table, 0, s)
    {
      assert s[i..][1..] == s[i + 1..];
      hash := HashStep(table, hash, s[i]);
      i := i + 1;
    }
  }
}
