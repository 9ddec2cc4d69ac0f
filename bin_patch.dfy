/**
 * The binary pass of TQtBinPatcher::patchBinFile: the buffer has exactly the
 * size of the file; each occurrence of a tagged old value is overwritten in
 * place with strcpy, a shorter new value is followed by zero bytes up to the
 * end of the old span, and the search resumes after what was written.
 */
module BinPatch {
  import opened Strings
  import opened StdMap
  import opened TextPatch

  /** n NUL bytes: what memset(First, 0, n) writes. */
  function Zeros(n: nat): (z: string)
    ensures |z| == n
    ensures forall i :: 0 <= i < n ==> z[i] == '\0'
  {
    seq(n, _ => '\0')
  }

  /**
   * The buffer after a pass, and whether the pass stopped at an occurrence
   * where strcpy would have written past the end of the buffer. The C++ code
   * does not check this and would overrun its heap buffer there.
   */
  datatype BinResult = BinResult(buf: string, overflow: bool)

  /** Where the search resumes after an occurrence at p: C++ First advanced by max(|old|, |new|). */
  function Resume(p: nat, pat: string, rep: string): nat
  {
    if |rep| < |pat| then p + |pat| else p + |rep|
  }

  /** strcpy of the new value at p fits in the buffer (the C++ code never checks this). */
  predicate Fits(s: string, p: nat, pat: string, rep: string)
  {
    p + |pat| <= |s| && (|rep| < |pat| || p + |rep| + 1 <= |s|)
  }

  /**
   * The buffer after replacing the occurrence at p: the new value with its
   * NUL, and, when it is shorter than the old value, zero bytes over the rest
   * of the old span.
   */
  function Overwrite(s: string, p: nat, pat: string, rep: string): (r: string)
    requires Fits(s, p, pat, rep)
    ensures |r| == |s|
    ensures r[..p] == s[..p]
  {
    if |rep| < |pat| then s[..p] + rep + Zeros(|pat| - |rep|) + s[p + |pat|..]
    else s[..p] + rep + ['\0'] + s[p + |rep| + 1..]
  }

  /** The states of the inner loop of patchBinFile for one pair, from cursor `from` on. */
  function BinReplaceFrom(s: string, pat: string, rep: string, from: nat): (r: BinResult)
    requires |pat| > 0 && from <= |s|
    ensures |r.buf| == |s|
    ensures r.buf[..from] == s[..from]
    decreases |s| - from
  {
    var p := Find(s, from, pat, false);
    if p == |s| then BinResult(s, false)
    else if Fits(s, p, pat, rep) then
      var next := Overwrite(s, p, pat, rep);
      var r := BinReplaceFrom(next, pat, rep, Resume(p, pat, rep));
      PrefixAgree(r.buf, next, s, from, p, Resume(p, pat, rep));
      r
    else BinResult(s, true)
  }

  /** Agreement on a longer prefix implies agreement on a shorter one, through a middle buffer. */
  lemma PrefixAgree(a: string, b: string, c: string, i: nat, j: nat, k: nat)
    requires i <= j <= k <= |a| && k <= |b| && j <= |c|
    requires a[..k] == b[..k] && b[..j] == c[..j]
    ensures a[..i] == c[..i]
  {
    assert a[..i] == a[..k][..i] && b[..i] == b[..k][..i];
    assert b[..i] == b[..j][..i] && c[..i] == c[..j][..i];
  }

  /** One iteration of the inner loop, as BinReplaceFrom takes it. */
  lemma BinReplaceStep(s: string, pat: string, rep: string, from: nat, p: nat)
    requires |pat| > 0 && from <= |s|
    requires p == Find(s, from, pat, false) && p < |s| && Fits(s, p, pat, rep)
    ensures BinReplaceFrom(s, pat, rep, from)
      == BinReplaceFrom(Overwrite(s, p, pat, rep), pat, rep, Resume(p, pat, rep))
  {
  }

  /**
   * A shorter new value: the pass is the text pass with the new value padded
   * by zero bytes to the old value's length. So every occurrence is
   * rewritten, each old span becomes the new value followed by |old| - |new|
   * zero bytes, the search resumes at the end of the old span, nothing else
   * changes, and the pass never overflows.
   */
  lemma {:induction false} BinShorterIsPaddedReplace(s: string, pat: string, rep: string, from: nat)
    requires |rep| < |pat| && from <= |s|
    ensures BinReplaceFrom(s, pat, rep, from)
      == BinResult(s[..from] + Replaced(s[from..], pat, rep + Zeros(|pat| - |rep|), false), false)
    decreases |s| - from
  {
    var pad := rep + Zeros(|pat| - |rep|);
    var p := Find(s, from, pat, false);
    if p == |s| {
      ReplaceDone(s, from, pat, pad, false);
    } else {
      var next := s[..p] + pad + s[p + |pat|..];
      assert next == Overwrite(s, p, pat, rep);
      BinReplaceStep(s, pat, rep, from, p);
      BinShorterIsPaddedReplace(next, pat, rep, p + |pat|);
      ReplacedAt(s, from, p, pat, pad, false);
      ReplaceStep(s, from, p, pat, pad, false);
    }
  }

  /**
   * A new value at least as long as the old one: no padding; the bytes
   * before the cursor become the new value (its NUL terminator lands just
   * after it, outside the old span), and the search resumes right after the
   * new value.
   */
  lemma BinLongerFirstMatch(s: string, pat: string, rep: string, from: nat)
    requires |pat| > 0 && |rep| >= |pat| && from <= |s|
    ensures var p := Find(s, from, pat, false);
      var r := BinReplaceFrom(s, pat, rep, from);
      && (p == |s| ==> r == BinResult(s, false))
      && (p < |s| && p + |rep| + 1 <= |s| ==>
            r.buf[..p + |rep|] == s[..p] + rep
            && r == BinReplaceFrom(s[..p] + rep + ['\0'] + s[p + |rep| + 1..], pat, rep, p + |rep|))
      && (p < |s| && p + |rep| + 1 > |s| ==> r == BinResult(s, true))
  {
    var p := Find(s, from, pat, false);
    if p < |s| {
      if p + |rep| + 1 <= |s| {
        var next := s[..p] + rep + ['\0'] + s[p + |rep| + 1..];
        assert Fits(s, p, pat, rep);
        assert Overwrite(s, p, pat, rep) == next;
        BinReplaceStep(s, pat, rep, from, p);
        assert next[..p + |rep|] == s[..p] + rep;
        var r := BinReplaceFrom(next, pat, rep, p + |rep|);
        assert r.buf[..p + |rep|] == next[..p + |rep|];
      } else {
        assert !Fits(s, p, pat, rep);
      }
    }
  }

  /** The whole binary pass: each pair of the table in turn, stopping at an overflow. */
  function BinApply(s: string, es: seq<Entry<string>>): (r: BinResult)
    requires NonEmptyKeys(es)
    ensures |r.buf| == |s|
    decreases es
  {
    if es == [] then BinResult(s, false)
    else
      var r := BinReplaceFrom(s, es[0].key, es[0].value, 0);
      if r.overflow then r else BinApply(r.buf, es[1..])
  }

  /**
   * strcpy(a + at, src): the characters of src and then a NUL. src must hold
   * no NUL of its own, or strcpy would stop there.
   */
  method StrCpy(a: array<char>, at: nat, src: string)
    requires '\0' !in src && at + |src| + 1 <= a.Length
    modifies a
    ensures a[..] == old(a[..])[..at] + src + ['\0'] + old(a[..])[at + |src| + 1..]
  {
    for i := 0 to |src|
      invariant forall k :: 0 <= k < a.Length ==> a[k] == if at <= k < at + i then src[k - at] else old(a[k])
    {
      a[at + i] := src[i];
    }
    a[at + |src|] := '\0';
    assert a[..] == old(a[..])[..at] + src + ['\0'] + old(a[..])[at + |src| + 1..];
  }

  /** memset(a + at, 0, n) */
  method MemSet(a: array<char>, at: nat, n: nat)
    requires at + n <= a.Length
    modifies a
    ensures a[..] == old(a[..])[..at] + Zeros(n) + old(a[..])[at + n..]
  {
    for i := 0 to n
      invariant forall k :: 0 <= k < a.Length ==> a[k] == if at <= k < at + i then '\0' else old(a[k])
    {
      a[at + i] := '\0';
    }
    assert a[..] == old(a[..])[..at] + Zeros(n) + old(a[..])[at + n..];
  }

  /**
   * The inner loop of patchBinFile for one pair; `first` is the C++ First
   * pointer as an offset into the buffer. Returns true when it stopped at an
   * occurrence whose NUL-terminated new value does not fit in the buffer.
   */
  method BinReplaceAll(a: array<char>, pat: string, rep: string) returns (overflow: bool)
    requires |pat| > 0 && '\0' !in rep
    modifies a
    ensures BinResult(a[..], overflow) == BinReplaceFrom(old(a[..]), pat, rep, 0)
  {
    var first: nat := 0;
    while true
      invariant first <= a.Length
      invariant BinReplaceFrom(a[..], pat, rep, first) == BinReplaceFrom(old(a[..]), pat, rep, 0)
      decreases a.Length - first
    {
      var found := Find(a[..], first, pat, false);
      if found == a.Length {
        return false;
      }
      if found + |rep| + 1 > a.Length {
        return true;
      }
      ghost var s, from := a[..], first;
      first := OverwriteAt(a, found, pat, rep);
      BinReplaceStep(s, pat, rep, from, found);
    }
  }

  /**
   * One occurrence at p: strcpy of the new value, then memset over the rest
   * of the old span when the new value is shorter. Returns where the search
   * resumes.
   */
  method OverwriteAt(a: array<char>, p: nat, pat: string, rep: string) returns (next: nat)
    requires '\0' !in rep && p + |pat| <= a.Length && p + |rep| + 1 <= a.Length
    modifies a
    ensures Fits(old(a[..]), p, pat, rep)
    ensures a[..] == Overwrite(old(a[..]), p, pat, rep) && next == Resume(p, pat, rep)
  {
    ghost var s := a[..];
    StrCpy(a, p, rep);
    next := p + |rep|;
    var delta := |pat| - |rep|;
    if delta > 0 {
      ghost var t := a[..];
      MemSet(a, next, delta);
      next := next + delta;
      CopyThenPad(s, t, a[..], p, pat, rep);
    }
  }

  /** strcpy followed by memset over the rest of the old span leaves the new value and zero padding. */
  lemma CopyThenPad(s: string, t: string, u: string, p: nat, pat: string, rep: string)
    requires |rep| < |pat| && p + |pat| <= |s|
    requires t == s[..p] + rep + ['\0'] + s[p + |rep| + 1..]
    requires u == t[..p + |rep|] + Zeros(|pat| - |rep|) + t[p + |rep| + |pat| - |rep|..]
    ensures u == Overwrite(s, p, pat, rep)
  {
    assert t[..p + |rep|] == s[..p] + rep;
    assert t[p + |pat|..] == s[p + |pat|..];
  }

  /** Every value of the table is a C string: it holds no NUL. */
  ghost predicate NulFreeValues(es: seq<Entry<string>>)
  {
    forall i :: 0 <= i < |es| ==> '\0' !in es[i].value
  }

  /** The loop over the binary table in patchBinFile. */
  method PatchBinBuffer(a: array<char>, values: seq<Entry<string>>) returns (overflow: bool)
    requires NonEmptyKeys(values) && NulFreeValues(values)
    modifies a
    ensures BinResult(a[..], overflow) == BinApply(old(a[..]), values)
  {
    for k := 0 to |values|
      invariant BinApply(a[..], values[k..]) == BinApply(old(a[..]), values)
    {
      assert values[k..][1..] == values[k + 1..];
      overflow := BinReplaceAll(a, values[k].key, values[k].value);
      if overflow {
        return;
      }
    }
    overflow := false;
  }

  /**
   * What patchBinFile does with the contents of a file: an empty file is a
   * read error (fread of zero bytes reads no item), an overflow is where the
   * C++ code has undefined behaviour, otherwise the buffer is written back.
   */
  datatype BinFileResult = ReadError | Overflow | Written(data: string)

  method PatchBinFile(contents: string, values: seq<Entry<string>>) returns (r: BinFileResult)
    requires NonEmptyKeys(values) && NulFreeValues(values)
    ensures r.ReadError? <==> contents == []
    ensures contents != [] ==>
      var p := BinApply(contents, values);
      r == if p.overflow then Overflow else Written(p.buf)
    ensures r.Written? ==> |r.data| == |contents|
  {
    if |contents| == 0 {
      return ReadError;
    }
    var buf := new char[|contents|](i requires 0 <= i < |contents| => contents[i]);
    assert buf[..] == contents;
    var overflow := PatchBinBuffer(buf, values);
    if overflow {
      r := Overflow;
    } else {
      r := Written(buf[..]);
    }
  }
}
