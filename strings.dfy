/**
 * The string helpers the patcher takes from its Functions library, and the
 * std::search it uses on buffers. Functions.hpp is not part of this model:
 * the helpers are the plain string functions their names and uses describe.
 */
module Strings {

  /** The target platform, chosen in the C++ code by OS_WINDOWS / OS_LINUX. */
  datatype Os = Windows | Linux

  /** nativeSeparator() */
  function NativeSeparator(os: Os): (c: char)
    ensures c == '/' || c == '\\'
    ensures c == '\\' <==> os == Windows
  {
    if os == Windows then '\\' else '/'
  }

  /** std::replace(s.begin(), s.end(), from, to): every `from` becomes `to`. */
  function ReplaceChar(s: string, from: char, to: char): (r: string)
    ensures |r| == |s|
    ensures forall i :: 0 <= i < |s| ==> r[i] == if s[i] == from then to else s[i]
    ensures from != to ==> from !in r
    ensures from !in s ==> r == s
  {
    seq(|s|, i requires 0 <= i < |s| => if s[i] == from then to else s[i])
  }

  /** replace(&s, c, text): every `c` of s becomes the whole of `text`. */
  function ReplaceCharBy(s: string, c: char, text: string): (r: string)
    ensures c !in text ==> c !in r
    ensures |text| >= 1 ==> |r| >= |s|
    ensures |text| >= 2 && c in s ==> |r| > |s|
    ensures c !in s ==> r == s
  {
    if s == [] then []
    else (if s[0] == c then text else [s[0]]) + ReplaceCharBy(s[1..], c, text)
  }

  /** toNormalSeparators(): backslashes become slashes. */
  function ToNormalSeparators(s: string): (r: string)
    ensures '\\' !in r
  {
    ReplaceChar(s, '\\', '/')
  }

  /**
   * toNativeSeparators(): slashes become the native separator. On Linux the
   * model also turns backslashes into slashes, so the result holds only the
   * native separator on either platform.
   */
  function ToNativeSeparators(s: string, os: Os): (r: string)
    ensures |r| == |s|
    ensures os == Windows ==> '/' !in r
    ensures os == Linux ==> '\\' !in r
  {
    if os == Windows then ReplaceChar(s, '/', '\\') else ToNormalSeparators(s)
  }

  /** A path with normal separators survives the round trip through native form. */
  lemma NormalOfNative(d: string, os: Os)
    requires '\\' !in d
    ensures ToNormalSeparators(ToNativeSeparators(d, os)) == d
  {
    var n := ToNativeSeparators(d, os);
    assert |ToNormalSeparators(n)| == |d|;
    forall i | 0 <= i < |d| ensures ToNormalSeparators(n)[i] == d[i] {
      assert d[i] != '\\';
    }
  }

  /** ::tolower in the "C" locale: only 'A'..'Z' change. */
  function ToLower(c: char): char
  {
    if 'A' <= c <= 'Z' then (c as int + 32) as char else c
  }

  function LowerString(s: string): (r: string)
    ensures |r| == |s|
  {
    seq(|s|, i requires 0 <= i < |s| => ToLower(s[i]))
  }

  /** The character comparison of std::search: caseInsensitiveComp when `fold`, == otherwise. */
  predicate CharEq(fold: bool, a: char, b: char)
  {
    if fold then ToLower(a) == ToLower(b) else a == b
  }

  /** The pattern p occurs in s starting at index i. */
  predicate MatchAt(s: string, i: nat, p: string, fold: bool)
  {
    i + |p| <= |s| && forall j :: 0 <= j < |p| ==> CharEq(fold, s[i + j], p[j])
  }

  /**
   * std::search(s.begin() + from, s.end(), p.begin(), p.end()): the first
   * index at or after `from` where p occurs, or |s| (the end iterator) when
   * there is none.
   */
  function Find(s: string, from: nat, p: string, fold: bool): (i: nat)
    requires from <= |s|
    ensures from <= i <= |s|
    ensures i < |s| ==> MatchAt(s, i, p, fold)
    ensures forall j :: from <= j < i ==> !MatchAt(s, j, p, fold)
    ensures i == |s| && |p| > 0 ==> forall j :: from <= j ==> !MatchAt(s, j, p, fold)
    decreases |s| - from
  {
    if from + |p| > |s| then |s|
    else if MatchAt(s, from, p, fold) then from
    else Find(s, from + 1, p, fold)
  }

  /** A match in a suffix of s is a match in s, shifted. */
  lemma MatchShift(s: string, k: nat, j: nat, p: string, fold: bool)
    requires k <= |s|
    ensures MatchAt(s[k..], j, p, fold) <==> MatchAt(s, k + j, p, fold)
  {
    if MatchAt(s, k + j, p, fold) {
      forall i | 0 <= i < |p| ensures CharEq(fold, s[k..][j + i], p[i]) {
        assert s[k..][j + i] == s[k + j + i];
      }
    }
  }

  /** A match that fits inside a prefix of s is a match in that prefix. */
  lemma MatchPrefix(s: string, n: nat, j: nat, p: string, fold: bool)
    requires n <= |s| && j + |p| <= n
    ensures MatchAt(s[..n], j, p, fold) <==> MatchAt(s, j, p, fold)
  {
  }

  /**
   * Concatenation regroups. The verifier proves this only by comparing the
   * sequences element by element, which is cheap on three variables but
   * runs out of resource inside the larger proofs that need it, so those
   * proofs call this lemma instead of asserting the regrouping in place.
   */
  lemma ConcatAssoc<T>(a: seq<T>, b: seq<T>, c: seq<T>)
    ensures (a + b) + c == a + (b + c)
  {
  }
}
