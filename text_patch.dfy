/**
 * The text pass of TQtBinPatcher::patchTxtFile: for each (old, new) pair of
 * the text table, in key order, every occurrence of old in the growable
 * buffer is erased and new is inserted in its place, and the next search
 * starts right after the inserted text.
 */
module TextPatch {
  import opened Strings
  import opened StdMap

  /**
   * Reference definition of one pair's pass, independent of the cursor
   * arithmetic of the loop: read s from left to right; an occurrence of pat
   * where reading stands is consumed and rep is emitted in its place, and
   * reading carries on after the occurrence. rep itself is never read.
   */
  function Replaced(s: string, pat: string, rep: string, fold: bool): string
    requires |pat| > 0
    decreases |s|
  {
    if s == [] then []
    else if MatchAt(s, 0, pat, fold) then rep + Replaced(s[|pat|..], pat, rep, fold)
    else [s[0]] + Replaced(s[1..], pat, rep, fold)
  }

  /** Without an occurrence of pat the pass changes nothing. */
  lemma {:induction false} ReplacedNoMatch(s: string, pat: string, rep: string, fold: bool)
    requires |pat| > 0
    requires forall j: nat :: !MatchAt(s, j, pat, fold)
    ensures Replaced(s, pat, rep, fold) == s
  {
    if s != [] {
      forall j: nat ensures !MatchAt(s[1..], j, pat, fold) {
        MatchShift(s, 1, j, pat, fold);
      }
      ReplacedNoMatch(s[1..], pat, rep, fold);
    }
  }

  /**
   * The first occurrence, at q, is replaced by rep; the text before it is
   * kept, and the rest of the pass works on what follows the occurrence.
   */
  lemma {:induction false} ReplacedFirstMatch(s: string, pat: string, rep: string, fold: bool, q: nat)
    requires |pat| > 0
    requires MatchAt(s, q, pat, fold)
    requires forall j :: 0 <= j < q ==> !MatchAt(s, j, pat, fold)
    ensures Replaced(s, pat, rep, fold) == s[..q] + rep + Replaced(s[q + |pat|..], pat, rep, fold)
  {
    if q > 0 {
      NoMatchShift(s, pat, fold, q);
      MatchShift(s, 1, q - 1, pat, fold);
      ReplacedFirstMatch(s[1..], pat, rep, fold, q - 1);
      assert s[1..][q - 1 + |pat|..] == s[q + |pat|..];
      var tail := Replaced(s[q + |pat|..], pat, rep, fold);
      assert Replaced(s, pat, rep, fold) == [s[0]] + (s[1..][..q - 1] + rep + tail);
      assert s[..q] == [s[0]] + s[1..][..q - 1];
      ConcatAssoc([s[0]], s[1..][..q - 1] + rep, tail);
      ConcatAssoc([s[0]], s[1..][..q - 1], rep);
    }
  }

  /** No occurrence before q in s means none before q - 1 in s[1..], and none at 0. */
  lemma NoMatchShift(s: string, pat: string, fold: bool, q: nat)
    requires 0 < q <= |s|
    requires forall j :: 0 <= j < q ==> !MatchAt(s, j, pat, fold)
    ensures forall j :: 0 <= j < q - 1 ==> !MatchAt(s[1..], j, pat, fold)
    ensures !MatchAt(s, 0, pat, fold)
  {
    forall j: nat | j < q - 1 ensures !MatchAt(s[1..], j, pat, fold) {
      MatchShift(s, 1, j, pat, fold);
    }
  }

  /** With exact comparison, replacing a path by itself leaves the text as it was. */
  lemma {:induction false} ReplacedSelf(s: string, pat: string)
    requires |pat| > 0
    ensures Replaced(s, pat, pat, false) == s
  {
    if s != [] {
      if MatchAt(s, 0, pat, false) {
        ReplacedSelf(s[|pat|..], pat);
        assert s[..|pat|] == pat;
        assert s == s[..|pat|] + s[|pat|..];
      } else {
        ReplacedSelf(s[1..], pat);
        assert s == [s[0]] + s[1..];
      }
    }
  }

  /** The pass over r[delta..] when its first occurrence is at found. */
  lemma ReplacedAt(r: string, delta: nat, found: nat, pat: string, rep: string, fold: bool)
    requires |pat| > 0 && delta <= found <= |r|
    requires MatchAt(r, found, pat, fold)
    requires forall j :: delta <= j < found ==> !MatchAt(r, j, pat, fold)
    ensures Replaced(r[delta..], pat, rep, fold)
      == r[delta..found] + rep + Replaced(r[found + |pat|..], pat, rep, fold)
  {
    var t := r[delta..];
    var q := found - delta;
    forall j | 0 <= j < q ensures !MatchAt(t, j, pat, fold) {
      MatchShift(r, delta, j, pat, fold);
    }
    MatchShift(r, delta, q, pat, fold);
    ReplacedFirstMatch(t, pat, rep, fold, q);
    assert t[q + |pat|..] == r[found + |pat|..];
    assert t[..q] == r[delta..found];
  }

  /**
   * One iteration of the inner loop of patchTxtFile: after replacing the
   * first occurrence at or after delta, the text before the new cursor is
   * final and what remains to do is the pass over the text after it.
   */
  lemma ReplaceStep(r: string, delta: nat, found: nat, pat: string, rep: string, fold: bool)
    requires |pat| > 0 && delta <= found && found + |pat| <= |r|
    requires Replaced(r[delta..], pat, rep, fold)
      == r[delta..found] + rep + Replaced(r[found + |pat|..], pat, rep, fold)
    ensures var next := r[..found] + rep + r[found + |pat|..];
      next[..found + |rep|] + Replaced(next[found + |rep|..], pat, rep, fold)
      == r[..delta] + Replaced(r[delta..], pat, rep, fold)
  {
    var next := r[..found] + rep + r[found + |pat|..];
    var tail := Replaced(r[found + |pat|..], pat, rep, fold);
    Splice(r, delta, found, found + |pat|, rep);
    assert next[..found + |rep|] + tail == r[..delta] + (r[delta..found] + rep + tail);
  }

  /** Sequence bookkeeping of one splice: the part before the new cursor, and the part after it. */
  lemma Splice(r: string, delta: nat, found: nat, after: nat, rep: string)
    requires delta <= found <= after <= |r|
    ensures var next := r[..found] + rep + r[after..];
      next[..found + |rep|] == r[..delta] + r[delta..found] + rep
      && next[found + |rep|..] == r[after..]
  {
    assert r[..delta] + r[delta..found] == r[..found];
  }

  /** At the end of the inner loop nothing after the cursor matches, so the pass is done. */
  lemma ReplaceDone(r: string, delta: nat, pat: string, rep: string, fold: bool)
    requires |pat| > 0 && delta <= |r|
    requires forall j: nat :: delta <= j ==> !MatchAt(r, j, pat, fold)
    ensures r[..delta] + Replaced(r[delta..], pat, rep, fold) == r
  {
    forall j: nat ensures !MatchAt(r[delta..], j, pat, fold) {
      MatchShift(r, delta, j, pat, fold);
    }
    ReplacedNoMatch(r[delta..], pat, rep, fold);
    assert r[..delta] + r[delta..] == r;
  }

  /**
   * The inner loop of patchTxtFile for one pair. `delta` is the C++ Delta:
   * the buffer offset where the next search starts.
   */
  method ReplaceAll(buf: string, pat: string, rep: string, fold: bool) returns (r: string)
    requires |pat| > 0
    ensures r == Replaced(buf, pat, rep, fold)
  {
    r := buf;
    var delta: nat := 0;
    var found := Find(r, delta, pat, fold);
    while found != |r|
      invariant delta <= found <= |r|
      invariant found == Find(r, delta, pat, fold)
      invariant r[..delta] + Replaced(r[delta..], pat, rep, fold) == Replaced(buf, pat, rep, fold)
      decreases |r| - delta
    {
      ReplacedAt(r, delta, found, pat, rep, fold);
      ReplaceStep(r, delta, found, pat, rep, fold);
      delta := found + |rep|;
      r := r[..found] + rep + r[found + |pat|..];
      found := Find(r, delta, pat, fold);
    }
    ReplaceDone(r, delta, pat, rep, fold);
  }

  /** Every key of the table is non-empty (std::search with an empty key would never advance). */
  ghost predicate NonEmptyKeys<V>(es: seq<Entry<V>>)
  {
    forall i :: 0 <= i < |es| ==> |es[i].key| > 0
  }

  /** The whole text pass: each pair of the table in turn, in key order. */
  function ApplyTxt(s: string, es: seq<Entry<string>>, fold: bool): string
    requires NonEmptyKeys(es)
    decreases es
  {
    if es == [] then s
    else ApplyTxt(Replaced(s, es[0].key, es[0].value, fold), es[1..], fold)
  }

  /** The loop over the map in patchTxtFile. */
  method PatchTxtBuffer(buf: string, values: seq<Entry<string>>, fold: bool) returns (r: string)
    requires NonEmptyKeys(values)
    ensures r == ApplyTxt(buf, values, fold)
  {
    r := buf;
    for k := 0 to |values|
      invariant ApplyTxt(r, values[k..], fold) == ApplyTxt(buf, values, fold)
    {
      assert values[k..][1..] == values[k + 1..];
      r := ReplaceAll(r, values[k].key, values[k].value, fold);
    }
  }

  /** What patchTxtFile does with a file it could read: skip it when empty, else write the patched buffer. */
  datatype TxtFileResult = Skipped | Rewritten(data: string)

  /** patchTxtFile on the contents of a file; every outcome here is a success. */
  method PatchTxtFile(contents: string, values: seq<Entry<string>>, fold: bool) returns (r: TxtFileResult)
    requires NonEmptyKeys(values)
    ensures r.Skipped? <==> contents == []
    ensures r.Rewritten? ==> r.data == ApplyTxt(contents, values, fold)
  {
    if |contents| > 0 {
      var data := PatchTxtBuffer(contents, values, fold);
      r := Rewritten(data);
    } else {
      r := Skipped;
    }
  }
}
