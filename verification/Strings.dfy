/** Small facts about concatenation and slices, and the `str` methods of Python the modules share. */
module Strings {

  lemma Assoc<T>(a: seq<T>, b: seq<T>, c: seq<T>)
    ensures a + b + c == a + (b + c)
  {}

  lemma Assoc4<T>(a: seq<T>, b: seq<T>, c: seq<T>, d: seq<T>)
    ensures a + b + c + d == a + (b + c + d) == a + (b + (c + d))
  {}

  lemma ConsTail<T>(x: T, s: seq<T>)
    ensures ([x] + s)[0] == x && ([x] + s)[1..] == s
  {}

  lemma TakeDrop<T>(s: seq<T>, i: nat, j: nat)
    requires i + j <= |s|
    ensures s[..i + j] == s[..i] + s[i..][..j] && s[i..][j..] == s[i + j..]
  {}

  lemma SplitTail<T>(s: seq<T>, i: nat, k: nat)
    requires i < k <= |s|
    ensures s[i..] == s[i..k] + s[k..] && s[i..k] != [] && s[i..k][0] == s[i]
  {}

  lemma DropOfAppend<T>(a: seq<T>, b: seq<T>, k: nat)
    requires k <= |a| && a != []
    ensures (a + b)[k..] == a[k..] + b && (a + b)[0] == a[0]
  {}

  lemma PrefixOfAppend<T>(p: seq<T>, x: seq<T>, y: seq<T>)
    ensures p <= x ==> p <= x + y
    ensures |p| <= |x| && p <= x + y ==> p <= x
  {
    if |p| <= |x| {
      assert (x + y)[..|p|] == x[..|p|];
    }
  }

  lemma PrefixOfPrefix<T>(p: seq<T>, q: seq<T>, x: seq<T>)
    requires p <= q
    ensures q <= x ==> p <= x
  {
    if q <= x {
      assert x[..|p|] == x[..|q|][..|p|];
    }
  }

  /** The characters `strip` removes. */
  predicate IsSpace(c: char) {
    || '\t' <= c <= '\r' || c == ' ' || '\U{1c}' <= c <= '\U{1f}' || c == '\U{85}' || c == '\U{a0}' || c == '\U{1680}'
    || '\U{2000}' <= c <= '\U{200a}' || c == '\U{2028}' || c == '\U{2029}' || c == '\U{202f}' || c == '\U{205f}'
    || c == '\U{3000}'
  }

  function StripLeft(s: string): string
    decreases |s|
  {
    if s != "" && IsSpace(s[0]) then StripLeft(s[1..]) else s
  }

  function StripRight(s: string): string
    decreases |s|
  {
    if s != "" && IsSpace(s[|s| - 1]) then StripRight(s[..|s| - 1]) else s
  }

  function Strip(s: string): string { StripRight(StripLeft(s)) }
}
