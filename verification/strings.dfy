/** The few text operations the app relies on: substring search, removal of
    every occurrence of a pattern, and ASCII case mapping. */
module Strings {

  predicate IsPrefix(p: string, s: string) {
    |p| <= |s| && s[..|p|] == p
  }

  /** `p in s` for strings: p occurs somewhere in s. */
  predicate Contains(s: string, p: string)
    decreases |s|
  {
    IsPrefix(p, s) || (|s| > 0 && Contains(s[1..], p))
  }

  /** Removes every occurrence of `pat`, scanning left to right without
      re-examining what was kept (`s.replace(pat, "")`). */
  function RemoveAll(s: string, pat: string): (r: string)
    requires |pat| > 0
    ensures |r| <= |s|
    decreases |s|
  {
    if |s| < |pat| then s
    else if IsPrefix(pat, s) then RemoveAll(s[|pat|..], pat)
    else [s[0]] + RemoveAll(s[1..], pat)
  }

  /** A text whose characters never start the pattern is left as it is. */
  lemma {:induction false} RemoveAllAbsent(s: string, pat: string)
    requires |pat| > 0 && pat[0] !in s
    ensures RemoveAll(s, pat) == s
    decreases |s|
  {
    if |s| >= |pat| {
      assert s[0] != pat[0];
      assert forall c :: c in s[1..] ==> c in s;
      RemoveAllAbsent(s[1..], pat);
    }
  }

  /** A pattern appended to a text that never contains its first character
      is the only thing removed: "ETH/USDT" + ":USDT" becomes "ETH/USDT". */
  lemma {:induction false} RemoveAllTrailing(base: string, pat: string)
    requires |pat| > 0 && pat[0] !in base
    ensures RemoveAll(base + pat, pat) == base
    decreases |base|
  {
    var s := base + pat;
    if base == [] {
      assert s == pat;
      assert IsPrefix(pat, s);
      assert s[|pat|..] == [];
    } else {
      assert s[0] == base[0] && base[0] != pat[0];
      assert !IsPrefix(pat, s);
      assert s[1..] == base[1..] + pat;
      assert forall c :: c in base[1..] ==> c in base;
      RemoveAllTrailing(base[1..], pat);
    }
  }

  /** Removes every occurrence of one character (`s.replace("/", "")`). */
  function RemoveChar(s: string, c: char): (r: string)
    ensures c !in r
    ensures |r| <= |s|
    ensures forall x :: x in r ==> x in s
  {
    if s == [] then []
    else (if s[0] == c then [] else [s[0]]) + RemoveChar(s[1..], c)
  }

  /** Only the removed character disappears: the rest keeps its order. */
  lemma {:induction false} RemoveCharKeepsOthers(s: string, c: char)
    requires c !in s
    ensures RemoveChar(s, c) == s
  {
    if s != [] {
      assert forall x :: x in s[1..] ==> x in s;
      RemoveCharKeepsOthers(s[1..], c);
    }
  }

  function LowerChar(c: char): char {
    if 'A' <= c <= 'Z' then (c as int + 32) as char else c
  }

  function UpperChar(c: char): char {
    if 'a' <= c <= 'z' then (c as int - 32) as char else c
  }

  /** `lowercase()` restricted to ASCII letters. */
  function Lowercase(s: string): (r: string)
    ensures |r| == |s|
    ensures forall i :: 0 <= i < |s| ==> r[i] == LowerChar(s[i])
  {
    seq(|s|, i requires 0 <= i < |s| => LowerChar(s[i]))
  }

  /** Character equality ignoring case, as `String.equals(ignoreCase = true)`
      compares character by character (ASCII letters only). */
  predicate CharEqualsIgnoreCase(a: char, b: char) {
    a == b || UpperChar(a) == UpperChar(b) || LowerChar(a) == LowerChar(b)
  }

  predicate EqualsIgnoreCase(a: string, b: string) {
    |a| == |b| && forall i :: 0 <= i < |a| ==> CharEqualsIgnoreCase(a[i], b[i])
  }
}
