/** String helpers shared by the model: lower-casing, prefix and substring tests.
    They are written over indices so that Dafny can evaluate them on literals. */
module Text {

  /** Lower-cases one character: ASCII capitals and the nine Polish capitals
      (Ą Ć Ę Ł Ń Ó Ś Ź Ż); every other character is left as it is. */
  function LowerChar(c: char): char
  {
    if 'A' <= c <= 'Z' then (c as int + 32) as char
    else if c == 'Ą' then 'ą'
    else if c == 'Ć' then 'ć'
    else if c == 'Ę' then 'ę'
    else if c == 'Ł' then 'ł'
    else if c == 'Ń' then 'ń'
    else if c == 'Ó' then 'ó'
    else if c == 'Ś' then 'ś'
    else if c == 'Ź' then 'ź'
    else if c == 'Ż' then 'ż'
    else c
  }

  function LowerFrom(s: string, i: nat): (r: string)
    requires i <= |s|
    ensures |r| == |s| - i
    ensures forall j :: 0 <= j < |r| ==> r[j] == LowerChar(s[i + j])
    decreases |s| - i
  {
    if i == |s| then [] else [LowerChar(s[i])] + LowerFrom(s, i + 1)
  }

  /** `toLowerCase()` on the characters the model distinguishes. */
  function Lower(s: string): string
  {
    LowerFrom(s, 0)
  }

  /** `t` is `s` lower-cased, checked from position `i` on. */
  predicate LowersToFrom(s: string, t: string, i: nat)
    requires i <= |s| == |t|
    decreases |s| - i
  {
    i == |s| || (LowerChar(s[i]) == t[i] && LowersToFrom(s, t, i + 1))
  }

  lemma {:induction false} LowersToFromFacts(s: string, t: string, i: nat)
    requires i <= |s| == |t| && LowersToFrom(s, t, i)
    ensures forall j :: i <= j < |s| ==> LowerChar(s[j]) == t[j]
    decreases |s| - i
  {
    if i < |s| {
      LowersToFromFacts(s, t, i + 1);
    }
  }

  /** A character-by-character check that `t` is the lower-cased `s`. */
  lemma LowersTo(s: string, t: string)
    requires |s| == |t| && LowersToFrom(s, t, 0)
    ensures Lower(s) == t
  {
    LowersToFromFacts(s, t, 0);
  }

  /** `c` does not occur in `s` from position `i` on. */
  predicate LacksFrom(s: string, c: char, i: nat)
    decreases |s| - i
  {
    i >= |s| || (s[i] != c && LacksFrom(s, c, i + 1))
  }

  lemma {:induction false} LacksFromFacts(s: string, c: char, i: nat)
    requires LacksFrom(s, c, i)
    ensures forall j :: i <= j < |s| ==> s[j] != c
    decreases |s| - i
  {
    if i < |s| {
      LacksFromFacts(s, c, i + 1);
    }
  }

  /** A keyword with a character that `s` lacks (checked position by position) does not
      occur in `s`. */
  lemma NotContainsLacking(s: string, k: string, c: char)
    requires c in k && LacksFrom(s, c, 0)
    ensures !Contains(s, k)
  {
    LacksFromFacts(s, c, 0);
    NotContainsChar(s, k, c);
  }

  /** Lower-casing works character by character, so it distributes over concatenation. */
  lemma LowerConcat(a: string, b: string)
    ensures Lower(a + b) == Lower(a) + Lower(b)
  {
    assert forall j :: 0 <= j < |a + b| ==> Lower(a + b)[j] == (Lower(a) + Lower(b))[j];
  }

  /** Whether `k` matches `s` at offset `i`, from the `j`-th character of `k` on. */
  predicate MatchFrom(s: string, k: string, i: nat, j: nat)
    requires i + |k| <= |s| && j <= |k|
    decreases |k| - j
  {
    j == |k| || (s[i + j] == k[j] && MatchFrom(s, k, i, j + 1))
  }

  /** `s.startsWith(p)` */
  predicate StartsWith(s: string, p: string)
  {
    |p| <= |s| && MatchFrom(s, p, 0, 0)
  }

  predicate ContainsFrom(s: string, k: string, i: nat)
    decreases |s| - i
  {
    i + |k| <= |s| && (MatchFrom(s, k, i, 0) || ContainsFrom(s, k, i + 1))
  }

  /** `s.includes(k)` (also Java's `s.contains(k)`): `k` occurs somewhere in `s`. */
  predicate Contains(s: string, k: string)
  {
    ContainsFrom(s, k, 0)
  }

  /** `k` occurs in `s` at position `i`. */
  predicate OccursAt(s: string, k: string, i: nat)
  {
    i + |k| <= |s| && s[i..i + |k|] == k
  }

  lemma {:induction false} MatchFromIff(s: string, k: string, i: nat, j: nat)
    requires i + |k| <= |s| && j <= |k|
    ensures MatchFrom(s, k, i, j) <==> s[i + j..i + |k|] == k[j..]
    decreases |k| - j
  {
    if j < |k| {
      MatchFromIff(s, k, i, j + 1);
      assert s[i + j..i + |k|] == [s[i + j]] + s[i + j + 1..i + |k|];
      assert k[j..] == [k[j]] + k[j + 1..];
    }
  }

  lemma {:induction false} ContainsFromIff(s: string, k: string, i: nat)
    ensures ContainsFrom(s, k, i) <==> exists p :: i <= p && OccursAt(s, k, p)
    decreases |s| - i
  {
    if i + |k| <= |s| {
      MatchFromIff(s, k, i, 0);
      assert k[0..] == k;
      ContainsFromIff(s, k, i + 1);
      if MatchFrom(s, k, i, 0) {
        assert OccursAt(s, k, i);
      }
      if !ContainsFrom(s, k, i) {
        forall p | i <= p ensures !OccursAt(s, k, p) {
          if p == i { assert !MatchFrom(s, k, i, 0); }
        }
      }
    } else {
      forall p | i <= p ensures !OccursAt(s, k, p) { }
    }
  }

  /** `Contains` holds exactly when some position of `s` starts an occurrence of `k`. */
  lemma ContainsIff(s: string, k: string)
    ensures Contains(s, k) <==> exists p :: OccursAt(s, k, p)
  {
    ContainsFromIff(s, k, 0);
  }

  /** `StartsWith` holds exactly when `p` is a prefix of `s`. */
  lemma StartsWithIff(s: string, p: string)
    ensures StartsWith(s, p) <==> |p| <= |s| && s[..|p|] == p
  {
    if |p| <= |s| {
      MatchFromIff(s, p, 0, 0);
    }
  }

  /** An occurrence at a known position makes `Contains` true. */
  lemma ContainsAt(s: string, k: string, i: nat)
    requires OccursAt(s, k, i)
    ensures Contains(s, k)
  {
    ContainsIff(s, k);
  }

  /** A match checked character by character at a known position makes `Contains` true. */
  lemma ContainsByMatch(s: string, k: string, i: nat)
    requires i + |k| <= |s| && MatchFrom(s, k, i, 0)
    ensures Contains(s, k)
  {
    MatchFromIff(s, k, i, 0);
    assert k[0..] == k;
    ContainsAt(s, k, i);
  }

  /** A keyword with a character that the text lacks does not occur in it. */
  lemma NotContainsChar(s: string, k: string, c: char)
    requires c in k && c !in s
    ensures !Contains(s, k)
  {
    ContainsIff(s, k);
  }

  /** Whatever occurs in `a` occurs in `a + b` and in `b + a`. */
  lemma ContainsInConcat(a: string, b: string, k: string)
    requires Contains(a, k)
    ensures Contains(a + b, k) && Contains(b + a, k)
  {
    ContainsIff(a, k);
    var p: nat :| OccursAt(a, k, p);
    assert (a + b)[p..p + |k|] == a[p..p + |k|];
    assert (b + a)[|b| + p..|b| + p + |k|] == a[p..p + |k|];
    ContainsAt(a + b, k, p);
    ContainsAt(b + a, k, |b| + p);
  }

  /** Some keyword of the list occurs in `s` (`keywords.some(k => s.includes(k))`). */
  predicate ContainsAny(s: string, keywords: seq<string>)
  {
    exists i :: 0 <= i < |keywords| && Contains(s, keywords[i])
  }
}
