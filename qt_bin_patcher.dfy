/**
 * The patch engine of TQtBinPatcher: the decision whether patching is
 * needed, the substitution tables for text and binary files, the lists of
 * files to patch for each Qt version, the limit on the new directory and
 * the per-file patch steps. File contents, directory listings and the
 * absolute-path resolution of the file system are parameters.
 */
module QtBinPatcher {
  import opened Wrappers
  import opened Strings
  import opened StdMap
  import opened TextPatch
  import opened BinPatch
  import QMake
  import opened BinParams

  /** QT_PATH_MAX_LEN: the longest new Qt directory accepted. */
  const QtPathMaxLen: nat := 450

  // ---------------------------------------------------------------------------
  // Comparing paths

  /** Equal once both sides are lower-cased: strneq's notion of "the same" on Windows. */
  predicate SameIgnoringCase(a: string, b: string)
  {
    |a| == |b| && forall i :: 0 <= i < |a| ==> ToLower(a[i]) == ToLower(b[i])
  }

  /** strneq: the two paths differ; on Windows file names are case-insensitive. */
  function StrNeq(os: Os, s1: string, s2: string): (r: bool)
    ensures os == Linux ==> (r <==> s1 != s2)
    ensures os == Windows ==> (r <==> !SameIgnoringCase(s1, s2))
    ensures r ==> s1 != s2
  {
    if os == Windows then
      LowerEqual(s1, s2);
      LowerString(s1) != LowerString(s2)
    else s1 != s2
  }

  lemma LowerEqual(s1: string, s2: string)
    ensures LowerString(s1) == LowerString(s2) <==> SameIgnoringCase(s1, s2)
  {
    if LowerString(s1) == LowerString(s2) {
      forall i | 0 <= i < |s1| ensures ToLower(s1[i]) == ToLower(s2[i]) {
        assert LowerString(s1)[i] == LowerString(s2)[i];
      }
    }
  }

  /**
   * isPatchNeeded: the install prefix qmake reports, with normal
   * separators, names a different directory than the new one. An unknown
   * prefix or an empty new directory means no patching.
   */
  function IsPatchNeeded(os: Os, installPrefix: string, newQtDir: string): (r: bool)
    requires '\\' !in newQtDir
    ensures installPrefix == [] || newQtDir == [] ==> !r
    ensures r <==> (installPrefix != [] && newQtDir != [] &&
      if os == Windows then !SameIgnoringCase(ToNormalSeparators(installPrefix), newQtDir)
      else ToNormalSeparators(installPrefix) != newQtDir)
  {
    var oldQtDir := ToNormalSeparators(installPrefix);
    if oldQtDir != [] && newQtDir != [] then StrNeq(os, oldQtDir, newQtDir) else false
  }

  /** A Qt that already sits where it is going, whatever separators qmake reports it with, is left alone. */
  lemma SameDirNotNeeded(os: Os, newQtDir: string, reportedOs: Os)
    requires '\\' !in newQtDir
    ensures !IsPatchNeeded(os, ToNativeSeparators(newQtDir, reportedOs), newQtDir)
  {
    NormalOfNative(newQtDir, reportedOs);
  }

  /** On Windows a prefix that differs only in letter case is the same directory. */
  lemma CaseOnlyNotNeeded(newQtDir: string)
    requires '\\' !in newQtDir
    ensures !IsPatchNeeded(Windows, LowerString(newQtDir), newQtDir)
  {
    var p := ToNormalSeparators(LowerString(newQtDir));
    forall i | 0 <= i < |p| ensures ToLower(p[i]) == ToLower(newQtDir[i]) {
      assert LowerString(newQtDir)[i] == ToLower(newQtDir[i]);
    }
  }

  // ---------------------------------------------------------------------------
  // The text table

  /** oldPath with every '/' turned into a single backslash. */
  function Backslashed(p: string): string
  {
    ReplaceChar(p, '/', '\\')
  }

  /** replace(&S, '/', "\\\\"): every '/' turned into two backslashes. */
  function Doubled(p: string): string
  {
    ReplaceCharBy(p, '/', "\\\\")
  }

  /** The keys addTxtPatchValues writes for a non-empty path. */
  function TxtKeys(oldPath: string, os: Os): set<string>
  {
    if oldPath == [] then {}
    else {oldPath, Backslashed(oldPath)} + (if os == Windows then {Doubled(oldPath)} else {})
  }

  /** No form of a path is the empty string. */
  lemma TxtKeysNonEmpty(oldPath: string, os: Os)
    ensures "" !in TxtKeys(oldPath, os)
  {
    if oldPath != [] {
      assert |Backslashed(oldPath)| == |oldPath| && |Doubled(oldPath)| >= |oldPath|;
    }
  }

  /** With a '/' in the path, the Windows keys are three different strings. */
  lemma ThreeWindowsKeys(oldPath: string)
    ensures '/' in oldPath ==> oldPath != Backslashed(oldPath)
    ensures '/' in oldPath ==> Doubled(oldPath) != oldPath && Doubled(oldPath) != Backslashed(oldPath)
    ensures '/' in oldPath ==> |TxtKeys(oldPath, Windows)| == 3
  {
    if '/' in oldPath {
      var i :| 0 <= i < |oldPath| && oldPath[i] == '/';
      assert Backslashed(oldPath)[i] == '\\';
    }
  }

  /**
   * addTxtPatchValues: `oldPath` and its backslashed form map to the new
   * directory; on Windows the doubled-backslash form maps to the new
   * directory doubled in the same way. Each assignment overwrites an
   * existing key, so the later one wins where two forms coincide.
   */
  function AddTxt(m: seq<Entry<string>>, oldPath: string, newDir: string, os: Os): (r: seq<Entry<string>>)
    requires Valid(m)
    ensures Valid(r)
    ensures oldPath == [] ==> r == m
    ensures Keys(r) == Keys(m) + TxtKeys(oldPath, os)
    ensures forall k ::
              Get(r, k) == if k !in TxtKeys(oldPath, os) then Get(m, k)
                           else if os == Windows && k == Doubled(oldPath) then Some(Doubled(newDir))
                           else Some(newDir)
  {
    if oldPath == [] then m
    else
      var m2 := Put(Put(m, oldPath, newDir), Backslashed(oldPath), newDir);
      var r := if os == Windows then Put(m2, Doubled(oldPath), Doubled(newDir)) else m2;
      AddTxtLookups(m, oldPath, newDir, os, r);
      r
  }

  /** The lookups after the two or three assignments of addTxtPatchValues. */
  lemma AddTxtLookups(m: seq<Entry<string>>, oldPath: string, newDir: string, os: Os, r: seq<Entry<string>>)
    requires Valid(m) && oldPath != []
    requires var m2 := Put(Put(m, oldPath, newDir), Backslashed(oldPath), newDir);
      r == if os == Windows then Put(m2, Doubled(oldPath), Doubled(newDir)) else m2
    ensures forall k ::
              Get(r, k) == if k !in TxtKeys(oldPath, os) then Get(m, k)
                           else if os == Windows && k == Doubled(oldPath) then Some(Doubled(newDir))
                           else Some(newDir)
  {
    var m1 := Put(m, oldPath, newDir);
    var m2 := Put(m1, Backslashed(oldPath), newDir);
    forall k ensures Get(m2, k) == if k == oldPath || k == Backslashed(oldPath) then Some(newDir) else Get(m, k) {
    }
  }

  /** With a '/' in the path every form maps to the new directory as written for it. */
  lemma AddTxtWithSlash(m: seq<Entry<string>>, oldPath: string, newDir: string, os: Os)
    requires Valid(m) && '/' in oldPath
    ensures var r := AddTxt(m, oldPath, newDir, os);
      Get(r, oldPath) == Some(newDir) && Get(r, Backslashed(oldPath)) == Some(newDir) &&
      (os == Windows ==> Get(r, Doubled(oldPath)) == Some(Doubled(newDir)))
  {
    ThreeWindowsKeys(oldPath);
  }

  /**
   * Without a '/', the three Windows forms are the path itself, and the
   * last assignment, the doubled new directory, is what it maps to.
   */
  lemma AddTxtWithoutSlash(m: seq<Entry<string>>, oldPath: string, newDir: string)
    requires Valid(m) && oldPath != [] && '/' !in oldPath
    ensures var r := AddTxt(m, oldPath, newDir, Windows);
      Keys(r) == Keys(m) + {oldPath} && Get(r, oldPath) == Some(Doubled(newDir))
  {
  }

  /** The normal form of each old-dir, added in command-line order. */
  function AddTxtAll(m: seq<Entry<string>>, oldDirs: seq<string>, newDir: string, os: Os): (r: seq<Entry<string>>)
    requires Valid(m)
    ensures Valid(r)
    decreases |oldDirs|
  {
    if oldDirs == [] then m
    else AddTxt(AddTxtAll(m, oldDirs[..|oldDirs| - 1], newDir, os), ToNormalSeparators(oldDirs[|oldDirs| - 1]), newDir, os)
  }

  /** The text table createPatchValues builds: the install prefix first, then the old-dirs. */
  function TxtTable(installPrefix: string, oldDirs: seq<string>, newDir: string, os: Os): (r: seq<Entry<string>>)
    ensures Valid(r)
  {
    AddTxtAll(AddTxt([], ToNormalSeparators(installPrefix), newDir, os), oldDirs, newDir, os)
  }

  /** Every key the text table can hold, as a union over the paths. */
  function AllTxtKeys(installPrefix: string, oldDirs: seq<string>, os: Os): set<string>
    decreases |oldDirs|
  {
    if oldDirs == [] then TxtKeys(ToNormalSeparators(installPrefix), os)
    else AllTxtKeys(installPrefix, oldDirs[..|oldDirs| - 1], os) + TxtKeys(ToNormalSeparators(oldDirs[|oldDirs| - 1]), os)
  }

  /** A table is well formed for text patching toward newDir. */
  ghost predicate TxtTableShape(m: seq<Entry<string>>, newDir: string, os: Os)
  {
    "" !in Keys(m) &&
    forall k :: k in Keys(m) ==>
      Get(m, k) == Some(newDir) || (os == Windows && Get(m, k) == Some(Doubled(newDir)))
  }

  /**
   * The text table holds the forms of exactly the given paths, no empty
   * key, and maps every key to the new directory (on Windows, possibly to
   * its doubled-backslash form).
   */
  lemma {:induction false} TxtTableFacts(installPrefix: string, oldDirs: seq<string>, newDir: string, os: Os)
    ensures Keys(TxtTable(installPrefix, oldDirs, newDir, os)) == AllTxtKeys(installPrefix, oldDirs, os)
    ensures TxtTableShape(TxtTable(installPrefix, oldDirs, newDir, os), newDir, os)
    decreases |oldDirs|
  {
    if oldDirs != [] {
      var init := AddTxt([], ToNormalSeparators(installPrefix), newDir, os);
      var prev := oldDirs[..|oldDirs| - 1];
      TxtTableFacts(installPrefix, prev, newDir, os);
      assert TxtTable(installPrefix, oldDirs, newDir, os)
        == AddTxt(TxtTable(installPrefix, prev, newDir, os), ToNormalSeparators(oldDirs[|oldDirs| - 1]), newDir, os);
    }
  }

  /** On Linux every key of the text table is replaced by the new directory itself. */
  lemma LinuxTxtValues(installPrefix: string, oldDirs: seq<string>, newDir: string, k: string)
    requires k in AllTxtKeys(installPrefix, oldDirs, Linux)
    ensures Get(TxtTable(installPrefix, oldDirs, newDir, Linux), k) == Some(newDir)
  {
    TxtTableFacts(installPrefix, oldDirs, newDir, Linux);
  }

  /** A repeated old-dir adds nothing: the table with it twice equals the table with it once. */
  lemma {:induction false} RepeatedOldDir(installPrefix: string, oldDirs: seq<string>, d: string, newDir: string, os: Os)
    requires oldDirs != [] && oldDirs[|oldDirs| - 1] == d
    ensures TxtTable(installPrefix, oldDirs + [d], newDir, os) == TxtTable(installPrefix, oldDirs, newDir, os)
  {
    var t := TxtTable(installPrefix, oldDirs, newDir, os);
    assert (oldDirs + [d])[..|oldDirs|] == oldDirs;
    AddTxtTwice(TxtTable(installPrefix, oldDirs[..|oldDirs| - 1], newDir, os), ToNormalSeparators(d), newDir, os);
  }

  lemma AddTxtTwice(m: seq<Entry<string>>, p: string, newDir: string, os: Os)
    requires Valid(m)
    ensures AddTxt(AddTxt(m, p, newDir, os), p, newDir, os) == AddTxt(m, p, newDir, os)
  {
    var once := AddTxt(m, p, newDir, os);
    var twice := AddTxt(once, p, newDir, os);
    assert Keys(twice) == Keys(once);
    forall k ensures Get(twice, k) == Get(once, k) {
    }
    SameLookups(twice, once);
  }

  // ---------------------------------------------------------------------------
  // The binary table

  /** qmake reported a non-empty value for the row's variable. */
  predicate Active(p: Param, qmakeValues: seq<Entry<string>>)
  {
    QMake.Value(qmakeValues, p.name) != ""
  }

  /** The old string of a row: the tag followed by the value qmake reported. */
  function BinKey(p: Param, qmakeValues: seq<Entry<string>>): string
  {
    p.prefix + QMake.Value(qmakeValues, p.name)
  }

  /** The new string of a row: the tag, the new directory in native form, and the row's sub-directory. */
  function BinValue(p: Param, newDirNative: string, os: Os): string
  {
    p.prefix + newDirNative + if p.dir.Some? then [NativeSeparator(os)] + p.dir.value else ""
  }

  /** createBinPatchValues after the first n rows of ps, in table order, starting from m. */
  function BinTable(m: seq<Entry<string>>, ps: seq<Param>, n: nat, qmakeValues: seq<Entry<string>>, newDirNative: string, os: Os): (r: seq<Entry<string>>)
    requires Valid(m) && n <= |ps|
    ensures Valid(r)
    decreases n
  {
    if n == 0 then m
    else
      var prev := BinTable(m, ps, n - 1, qmakeValues, newDirNative, os);
      var p := ps[n - 1];
      if Active(p, qmakeValues) then Put(prev, BinKey(p, qmakeValues), BinValue(p, newDirNative, os)) else prev
  }

  /** The keys of the first n rows that have a value. */
  function ActiveKeys(ps: seq<Param>, n: nat, qmakeValues: seq<Entry<string>>): set<string>
    requires n <= |ps|
    decreases n
  {
    if n == 0 then {}
    else ActiveKeys(ps, n - 1, qmakeValues) + if Active(ps[n - 1], qmakeValues) then {BinKey(ps[n - 1], qmakeValues)} else {}
  }

  /** The number of the first n rows that have a value. */
  function ActiveCount(ps: seq<Param>, n: nat, qmakeValues: seq<Entry<string>>): nat
    requires n <= |ps|
    decreases n
  {
    if n == 0 then 0
    else ActiveCount(ps, n - 1, qmakeValues) + if Active(ps[n - 1], qmakeValues) then 1 else 0
  }

  /** Each of the first n rows with a value has a key that no earlier row with a value has. */
  ghost predicate FreshKeys(ps: seq<Param>, n: nat, qmakeValues: seq<Entry<string>>)
    requires n <= |ps|
    decreases n
  {
    n == 0 ||
    ((Active(ps[n - 1], qmakeValues) ==> BinKey(ps[n - 1], qmakeValues) !in ActiveKeys(ps, n - 1, qmakeValues)) &&
     FreshKeys(ps, n - 1, qmakeValues))
  }

  /** Strings that start with different tags of the same length differ. */
  lemma DifferentTags(a: string, x: string, b: string, y: string)
    requires |a| == |b| && a != b
    ensures a + x != b + y
  {
    assert (a + x)[..|a|] == a && (b + y)[..|b|] == b;
  }

  /** createBinPatchValues adds exactly the keys of the rows with a value. */
  lemma {:induction false} BinTableKeys(m: seq<Entry<string>>, ps: seq<Param>, n: nat, qmakeValues: seq<Entry<string>>, newDirNative: string, os: Os)
    requires Valid(m) && n <= |ps|
    ensures Keys(BinTable(m, ps, n, qmakeValues, newDirNative, os)) == Keys(m) + ActiveKeys(ps, n, qmakeValues)
  {
    if n > 0 {
      BinTableKeys(m, ps, n - 1, qmakeValues, newDirNative, os);
      var prev := BinTable(m, ps, n - 1, qmakeValues, newDirNative, os);
      var p := ps[n - 1];
      var store := Active(p, qmakeValues);
      var k := BinKey(p, qmakeValues);
      var t := BinTable(m, ps, n, qmakeValues, newDirNative, os);
      assert Keys(t) == if store then Keys(prev) + {k} else Keys(prev);
      UnionStep(Keys(t), Keys(prev), Keys(m), ActiveKeys(ps, n - 1, qmakeValues), ActiveKeys(ps, n, qmakeValues), k, store);
    }
  }

  /** One step of a union built up from the left. */
  lemma UnionStep(t: set<string>, prev: set<string>, m: set<string>, before: set<string>, after: set<string>, k: string, store: bool)
    requires prev == m + before
    requires t == if store then prev + {k} else prev
    requires after == before + if store then {k} else {}
    ensures t == m + after
  {
  }

  /** No two rows share a key. */
  lemma KeyOfOtherRow(ps: seq<Param>, qmakeValues: seq<Entry<string>>, i: nat, j: nat)
    requires DistinctTags(ps) && i < |ps| && j < |ps| && i != j
    ensures BinKey(ps[i], qmakeValues) != BinKey(ps[j], qmakeValues)
  {
    assert |ps[i].prefix| == TagLen == |ps[j].prefix|;
    assert ps[i].prefix != ps[j].prefix;
    DifferentTags(ps[i].prefix, QMake.Value(qmakeValues, ps[i].name), ps[j].prefix, QMake.Value(qmakeValues, ps[j].name));
  }

  /** A key among the first n rows' keys is the key of one of them. */
  lemma {:induction false} ActiveKeyIndex(ps: seq<Param>, n: nat, qmakeValues: seq<Entry<string>>, k: string) returns (i: nat)
    requires n <= |ps| && k in ActiveKeys(ps, n, qmakeValues)
    ensures i < n && Active(ps[i], qmakeValues) && k == BinKey(ps[i], qmakeValues)
  {
    if Active(ps[n - 1], qmakeValues) && k == BinKey(ps[n - 1], qmakeValues) {
      i := n - 1;
    } else {
      i := ActiveKeyIndex(ps, n - 1, qmakeValues, k);
    }
  }

  /** A row with a value among the first n contributes its key. */
  lemma {:induction false} ActiveKeyMember(ps: seq<Param>, n: nat, qmakeValues: seq<Entry<string>>, i: nat)
    requires n <= |ps| && i < n && Active(ps[i], qmakeValues)
    ensures BinKey(ps[i], qmakeValues) in ActiveKeys(ps, n, qmakeValues)
  {
    if i < n - 1 {
      ActiveKeyMember(ps, n - 1, qmakeValues, i);
    }
  }

  /** Distinct tags give every row a fresh key. */
  lemma {:induction false} DistinctFresh(ps: seq<Param>, n: nat, qmakeValues: seq<Entry<string>>)
    requires DistinctTags(ps) && n <= |ps|
    ensures FreshKeys(ps, n, qmakeValues)
  {
    if n > 0 {
      DistinctFresh(ps, n - 1, qmakeValues);
      FreshRow(ps, n - 1, qmakeValues);
    }
  }

  /** With distinct tags, row n's key is not the key of an earlier row. */
  lemma FreshRow(ps: seq<Param>, n: nat, qmakeValues: seq<Entry<string>>)
    requires DistinctTags(ps) && n < |ps|
    ensures BinKey(ps[n], qmakeValues) !in ActiveKeys(ps, n, qmakeValues)
  {
    var k := BinKey(ps[n], qmakeValues);
    if k in ActiveKeys(ps, n, qmakeValues) {
      var j := ActiveKeyIndex(ps, n, qmakeValues, k);
      KeyOfOtherRow(ps, qmakeValues, j, n);
    }
  }

  /** The rows of Params have fresh keys, whatever qmake reported. */
  lemma ParamsFresh(qmakeValues: seq<Entry<string>>)
    ensures FreshKeys(Params, |Params|, qmakeValues)
  {
    ParamsLen();
    ParamsDistinct();
    DistinctFresh(Params, |Params|, qmakeValues);
  }

  /**
   * Every row with a value is in the table: its key maps to its new
   * string, whatever the table held before.
   */
  lemma {:induction false} BinTableLookup(m: seq<Entry<string>>, ps: seq<Param>, n: nat, qmakeValues: seq<Entry<string>>, newDirNative: string, os: Os, i: nat)
    requires Valid(m) && n <= |ps| && FreshKeys(ps, n, qmakeValues)
    requires i < n && Active(ps[i], qmakeValues)
    ensures Get(BinTable(m, ps, n, qmakeValues, newDirNative, os), BinKey(ps[i], qmakeValues)) == Some(BinValue(ps[i], newDirNative, os))
  {
    if i < n - 1 {
      BinTableLookup(m, ps, n - 1, qmakeValues, newDirNative, os, i);
      ActiveKeyMember(ps, n - 1, qmakeValues, i);
    }
  }

  /** Starting from the empty map, the table has one entry per row with a value. */
  lemma {:induction false} BinTableSize(ps: seq<Param>, n: nat, qmakeValues: seq<Entry<string>>, newDirNative: string, os: Os)
    requires n <= |ps| && FreshKeys(ps, n, qmakeValues)
    ensures |BinTable([], ps, n, qmakeValues, newDirNative, os)| == ActiveCount(ps, n, qmakeValues)
  {
    if n > 0 {
      BinTableSize(ps, n - 1, qmakeValues, newDirNative, os);
      BinTableKeys([], ps, n - 1, qmakeValues, newDirNative, os);
    }
  }

  /**
   * The table createBinPatchValues builds from the 19 rows: one entry per
   * row whose variable qmake reported, under that row's key and with that
   * row's new string, and no other entry.
   */
  lemma ParamsTable(qmakeValues: seq<Entry<string>>, newDirNative: string, os: Os)
    ensures var t := BinTable([], Params, |Params|, qmakeValues, newDirNative, os);
      |t| == ActiveCount(Params, |Params|, qmakeValues) && Keys(t) == ActiveKeys(Params, |Params|, qmakeValues) &&
      forall i :: 0 <= i < |Params| && Active(Params[i], qmakeValues) ==>
        Get(t, BinKey(Params[i], qmakeValues)) == Some(BinValue(Params[i], newDirNative, os))
  {
    ParamsFresh(qmakeValues);
    BinTableSize(Params, |Params|, qmakeValues, newDirNative, os);
    BinTableKeys([], Params, |Params|, qmakeValues, newDirNative, os);
    forall i | 0 <= i < |Params| && Active(Params[i], qmakeValues)
      ensures Get(BinTable([], Params, |Params|, qmakeValues, newDirNative, os), BinKey(Params[i], qmakeValues)) ==
        Some(BinValue(Params[i], newDirNative, os))
    {
      BinTableLookup([], Params, |Params|, qmakeValues, newDirNative, os, i);
    }
  }

  /** The keys of a table start with TagLen characters of tag, so none is empty. */
  lemma {:induction false} ActiveKeysNonEmpty(ps: seq<Param>, n: nat, qmakeValues: seq<Entry<string>>)
    requires TagsSized(ps) && n <= |ps|
    ensures "" !in ActiveKeys(ps, n, qmakeValues)
  {
    if n > 0 {
      ActiveKeysNonEmpty(ps, n - 1, qmakeValues);
      assert |BinKey(ps[n - 1], qmakeValues)| >= TagLen;
    }
  }

  /** The table keeps every key non-empty, since each key it adds starts with a tag. */
  lemma BinTableNonEmptyKeys(m: seq<Entry<string>>, ps: seq<Param>, qmakeValues: seq<Entry<string>>, newDirNative: string, os: Os)
    requires Valid(m) && "" !in Keys(m) && TagsSized(ps)
    ensures var t := BinTable(m, ps, |ps|, qmakeValues, newDirNative, os); "" !in Keys(t) && NonEmptyKeys(t)
  {
    BinTableKeys(m, ps, |ps|, qmakeValues, newDirNative, os);
    ActiveKeysNonEmpty(ps, |ps|, qmakeValues);
    TableEntries(BinTable(m, ps, |ps|, qmakeValues, newDirNative, os));
  }

  /** Every value of a table is a C string when the new directory is one. */
  ghost predicate NulFreeTable(m: seq<Entry<string>>)
  {
    forall k :: k in Keys(m) ==> Get(m, k).Some? && '\0' !in Get(m, k).value
  }

  lemma {:induction false} BinTableNulFree(m: seq<Entry<string>>, ps: seq<Param>, n: nat, qmakeValues: seq<Entry<string>>, newDirNative: string, os: Os)
    requires Valid(m) && NulFreeTable(m) && NulFreeRows(ps) && '\0' !in newDirNative && n <= |ps|
    ensures NulFreeTable(BinTable(m, ps, n, qmakeValues, newDirNative, os))
  {
    if n > 0 {
      BinTableNulFree(m, ps, n - 1, qmakeValues, newDirNative, os);
      assert NulFreeRow(ps[n - 1]);
      assert '\0' !in BinValue(ps[n - 1], newDirNative, os);
    }
  }

  /** The key-wise facts of a map in the form the patch loops need, entry by entry. */
  lemma TableEntries(m: seq<Entry<string>>)
    requires Valid(m)
    ensures "" !in Keys(m) ==> NonEmptyKeys(m)
    ensures NulFreeTable(m) ==> NulFreeValues(m)
  {
    forall i | 0 <= i < |m| ensures m[i].key in Keys(m) && Get(m, m[i].key) == Some(m[i].value) {
      GetAt(m, i);
    }
  }

  // ---------------------------------------------------------------------------
  // The lists of files to patch

  /** A row of createTxtFilesForPatchList's tables: sub-directory, file mask, whether to descend. */
  datatype TxtElement = TxtElement(dir: string, name: string, recursive: bool)

  /** A row of createBinFilesForPatchList's tables. */
  datatype BinElement = BinElement(dir: string, name: string)

  function TxtElements4(os: Os): seq<TxtElement>
  {
    [TxtElement("/lib/", "*.prl", false),
     TxtElement("/demos/shared/", "libdemo_shared.prl", false)] +
    if os == Windows then
      [TxtElement("/mkspecs/default/", "qmake.conf", false),
       TxtElement("/", ".qmake.cache", false)]
    else
      [TxtElement("/lib/", "*.la", false),
       TxtElement("/lib/pkgconfig/", "*.pc", false),
       TxtElement("/mkspecs/", "qconfig.pri", false)]
  }

  function TxtElements5(os: Os): seq<TxtElement>
  {
    [TxtElement("/", "*.la", true),
     TxtElement("/", "*.prl", true),
     TxtElement("/", "*.pc", true),
     TxtElement("/", "*.pri", true),
     TxtElement("/lib/cmake/Qt5LinguistTools/", "Qt5LinguistToolsConfig.cmake", false),
     TxtElement("/mkspecs/default-host/", "qmake.conf", false)] +
    if os == Windows then
      [TxtElement("/mkspecs/default/", "qmake.conf", false),
       TxtElement("/", ".qmake.cache", false),
       TxtElement("/lib/", "prl.txt", false)]
    else []
  }

  function BinElements4(os: Os): seq<BinElement>
  {
    if os == Windows then
      [BinElement("/bin/", "qmake.exe"),
       BinElement("/bin/", "lrelease.exe"),
       BinElement("/bin/", "QtCore*.dll"),
       BinElement("/lib/", "QtCore*.dll")]
    else
      [BinElement("/bin/", "qmake"),
       BinElement("/bin/", "lrelease"),
       BinElement("/lib/", "libQtCore.so")]
  }

  function BinElements5(os: Os): seq<BinElement>
  {
    if os == Windows then
      [BinElement("/bin/", "qmake.exe"),
       BinElement("/bin/", "lrelease.exe"),
       BinElement("/bin/", "qdoc.exe"),
       BinElement("/bin/", "Qt5Core*.dll"),
       BinElement("/lib/", "Qt5Core*.dll")]
    else
      [BinElement("/bin/", "qmake"),
       BinElement("/bin/", "lrelease"),
       BinElement("/bin/", "qdoc"),
       BinElement("/lib/", "libQtCore.so")]
  }

  /** The switch on qtVersion() in createTxtFilesForPatchList: only Qt 4 and Qt 5 have a table. */
  function TxtElements(version: char, os: Os): (r: Option<seq<TxtElement>>)
    ensures r.Some? <==> version == '4' || version == '5'
    ensures version == '4' ==> r == Some(TxtElements4(os))
    ensures version == '5' ==> r == Some(TxtElements5(os))
  {
    match version
    case '4' => Some(TxtElements4(os))
    case '5' => Some(TxtElements5(os))
    case _ => None
  }

  /** The switch on qtVersion() in createBinFilesForPatchList. */
  function BinElements(version: char, os: Os): (r: Option<seq<BinElement>>)
    ensures r.Some? <==> version == '4' || version == '5'
    ensures version == '4' ==> r == Some(BinElements4(os))
    ensures version == '5' ==> r == Some(BinElements5(os))
  {
    match version
    case '4' => Some(BinElements4(os))
    case '5' => Some(BinElements5(os))
    case _ => None
  }

  /** The files one text element names: findFilesRecursive or findFiles under qtDir + dir. */
  function TxtFound(qtDir: string, e: TxtElement, findFiles: (string, string) -> seq<string>,
                    findFilesRecursive: (string, string) -> seq<string>): seq<string>
  {
    if e.recursive then findFilesRecursive(qtDir + e.dir, e.name) else findFiles(qtDir + e.dir, e.name)
  }

  /** The list the loop splices together from the first n elements, element after element. */
  function TxtFileList(qtDir: string, es: seq<TxtElement>, n: nat, findFiles: (string, string) -> seq<string>,
                       findFilesRecursive: (string, string) -> seq<string>): seq<string>
    requires n <= |es|
    decreases n
  {
    if n == 0 then []
    else TxtFileList(qtDir, es, n - 1, findFiles, findFilesRecursive) + TxtFound(qtDir, es[n - 1], findFiles, findFilesRecursive)
  }

  /** The files one binary element names: findFiles under qtDir + dir. */
  function BinFound(qtDir: string, e: BinElement, findFiles: (string, string) -> seq<string>): seq<string>
  {
    findFiles(qtDir + e.dir, e.name)
  }

  function BinFileList(qtDir: string, es: seq<BinElement>, n: nat, findFiles: (string, string) -> seq<string>): seq<string>
    requires n <= |es|
    decreases n
  {
    if n == 0 then []
    else BinFileList(qtDir, es, n - 1, findFiles) + BinFound(qtDir, es[n - 1], findFiles)
  }

  /** A file is in the text list exactly when the search of one of the elements found it. */
  lemma {:induction false} TxtFileListMembers(qtDir: string, es: seq<TxtElement>, n: nat, findFiles: (string, string) -> seq<string>,
                                              findFilesRecursive: (string, string) -> seq<string>, f: string)
    requires n <= |es|
    ensures f in TxtFileList(qtDir, es, n, findFiles, findFilesRecursive) <==>
      exists i :: 0 <= i < n && f in TxtFound(qtDir, es[i], findFiles, findFilesRecursive)
  {
    if n > 0 {
      TxtFileListMembers(qtDir, es, n - 1, findFiles, findFilesRecursive, f);
      if f !in TxtFileList(qtDir, es, n, findFiles, findFilesRecursive) {
        forall i | 0 <= i < n ensures f !in TxtFound(qtDir, es[i], findFiles, findFilesRecursive) {
        }
      }
    }
  }

  /** A file is in the binary list exactly when findFiles returned it for one of the elements. */
  lemma {:induction false} BinFileListMembers(qtDir: string, es: seq<BinElement>, n: nat, findFiles: (string, string) -> seq<string>, f: string)
    requires n <= |es|
    ensures f in BinFileList(qtDir, es, n, findFiles) <==> exists i :: 0 <= i < n && f in BinFound(qtDir, es[i], findFiles)
  {
    if n > 0 {
      BinFileListMembers(qtDir, es, n - 1, findFiles, f);
      if f !in BinFileList(qtDir, es, n, findFiles) {
        forall i | 0 <= i < n ensures f !in BinFound(qtDir, es[i], findFiles) {
        }
      }
    }
  }

  // ---------------------------------------------------------------------------
  // TQtBinPatcher

  class Patcher {
    const os: Os
    const qmake: QMake.QMake
    var qtDir: string
    var newQtDir: string
    var txtPatchValues: seq<Entry<string>>
    var binPatchValues: seq<Entry<string>>
    var txtFilesForPatch: seq<string>
    var binFilesForPatch: seq<string>

    /** Both tables are std::maps and neither holds an empty key. */
    ghost predicate Valid()
      reads this
    {
      StdMap.Valid(txtPatchValues) && StdMap.Valid(binPatchValues) &&
      "" !in Keys(txtPatchValues) && "" !in Keys(binPatchValues) &&
      NonEmptyKeys(txtPatchValues) && NonEmptyKeys(binPatchValues)
    }

    constructor (os: Os)
      ensures Valid() && this.os == os
      ensures fresh(qmake) && qmake.os == os && qmake.version == '\0' && qmake.values == []
      ensures qtDir == [] && newQtDir == [] && txtPatchValues == [] && binPatchValues == []
      ensures txtFilesForPatch == [] && binFilesForPatch == []
    {
      this.os := os;
      qmake := new QMake.QMake(os);
      qtDir, newQtDir := [], [];
      txtPatchValues, binPatchValues := [], [];
      txtFilesForPatch, binFilesForPatch := [], [];
    }

    /**
     * getNewQtDir: the requested directory made absolute, or the current
     * Qt directory, with normal separators; accepted when it is non-empty
     * and at most QtPathMaxLen characters long.
     */
    method GetNewQtDir(requested: string, absolutePath: string -> string) returns (ok: bool)
      modifies this`newQtDir
      ensures newQtDir == ToNormalSeparators(if requested != [] then absolutePath(requested) else qtDir)
      ensures ok <==> 0 < |newQtDir| <= QtPathMaxLen
    {
      newQtDir := requested;
      if newQtDir != [] {
        newQtDir := absolutePath(newQtDir);
      } else {
        newQtDir := qtDir;
      }
      newQtDir := ToNormalSeparators(newQtDir);
      if |newQtDir| > QtPathMaxLen {
        return false;
      }
      ok := newQtDir != [];
    }

    /** addTxtPatchValues */
    method AddTxtPatchValues(oldPath: string)
      requires Valid() && '\\' !in oldPath
      modifies this`txtPatchValues
      ensures Valid()
      ensures txtPatchValues == AddTxt(old(txtPatchValues), oldPath, newQtDir, os)
    {
      if oldPath != [] {
        txtPatchValues := Put(txtPatchValues, oldPath, newQtDir);
        var s := ReplaceChar(oldPath, '/', '\\');
        txtPatchValues := Put(txtPatchValues, s, newQtDir);
        if os == Windows {
          var newQtDirDS := ReplaceCharBy(newQtDir, '/', "\\\\");
          s := ReplaceCharBy(oldPath, '/', "\\\\");
          txtPatchValues := Put(txtPatchValues, s, newQtDirDS);
        }
      }
      assert txtPatchValues == AddTxt(old(txtPatchValues), oldPath, newQtDir, os);
      TxtKeysNonEmpty(oldPath, os);
      TableEntries(txtPatchValues);
    }

    /** createBinPatchValues: one entry per row of Params whose variable qmake reported. */
    method CreateBinPatchValues()
      requires Valid()
      modifies this`binPatchValues
      ensures Valid()
      ensures binPatchValues == BinTable(old(binPatchValues), Params, |Params|, qmake.values, ToNativeSeparators(newQtDir, os), os)
    {
      ParamsLen();
      AddBinRows(Params);
    }

    /** The loop of createBinPatchValues over the rows ps. */
    method AddBinRows(ps: seq<Param>)
      requires Valid() && TagsSized(ps)
      modifies this`binPatchValues
      ensures Valid()
      ensures binPatchValues == BinTable(old(binPatchValues), ps, |ps|, qmake.values, ToNativeSeparators(newQtDir, os), os)
    {
      var newQtDirNative := ToNativeSeparators(newQtDir, os);
      for i := 0 to |ps|
        invariant StdMap.Valid(binPatchValues)
        invariant binPatchValues == BinTable(old(binPatchValues), ps, i, qmake.values, newQtDirNative, os)
      {
        var param := ps[i];
        var oldValue := QMake.Value(qmake.values, param.name);
        if oldValue != [] {
          var newValue := param.prefix + newQtDirNative;
          if param.dir.Some? {
            newValue := newValue + [NativeSeparator(os)] + param.dir.value;
          }
          assert newValue == BinValue(param, newQtDirNative, os);
          binPatchValues := Put(binPatchValues, param.prefix + oldValue, newValue);
        }
      }
      BinTableNonEmptyKeys(old(binPatchValues), ps, qmake.values, newQtDirNative, os);
    }

    /** createPatchValues: clear both tables, add the install prefix, the binary rows, then each old-dir. */
    method CreatePatchValues(oldDirs: seq<string>)
      requires Valid()
      modifies this`txtPatchValues, this`binPatchValues
      ensures Valid()
      ensures txtPatchValues == TxtTable(QMake.Value(qmake.values, "QT_INSTALL_PREFIX"), oldDirs, newQtDir, os)
      ensures binPatchValues == BinTable([], Params, |Params|, qmake.values, ToNativeSeparators(newQtDir, os), os)
      ensures '\0' !in newQtDir ==> NulFreeTable(binPatchValues)
    {
      txtPatchValues := [];
      binPatchValues := [];
      AddTxtPatchValues(ToNormalSeparators(QMake.Value(qmake.values, "QT_INSTALL_PREFIX")));
      CreateBinPatchValues();
      AddOldDirs(oldDirs);
      if '\0' !in newQtDir {
        NulFreeNative(newQtDir, os);
        ParamsNul();
        BinTableNulFree([], Params, |Params|, qmake.values, ToNativeSeparators(newQtDir, os), os);
      }
    }

    /** The loop of createPatchValues over the old-dir values, in command-line order. */
    method AddOldDirs(oldDirs: seq<string>)
      requires Valid()
      modifies this`txtPatchValues
      ensures Valid()
      ensures txtPatchValues == AddTxtAll(old(txtPatchValues), oldDirs, newQtDir, os)
    {
      for i := 0 to |oldDirs|
        invariant Valid()
        invariant txtPatchValues == AddTxtAll(old(txtPatchValues), oldDirs[..i], newQtDir, os)
      {
        AddTxtPatchValues(ToNormalSeparators(oldDirs[i]));
        assert oldDirs[..i + 1][..i] == oldDirs[..i];
      }
      assert oldDirs[..|oldDirs|] == oldDirs;
    }

    /** createTxtFilesForPatchList, with the directory searches as parameters. */
    method CreateTxtFilesForPatchList(findFiles: (string, string) -> seq<string>,
                                      findFilesRecursive: (string, string) -> seq<string>) returns (ok: bool)
      modifies this`txtFilesForPatch
      ensures ok <==> qmake.version == '4' || qmake.version == '5'
      ensures txtFilesForPatch ==
        match TxtElements(qmake.version, os)
        case None => []
        case Some(es) => TxtFileList(qtDir, es, |es|, findFiles, findFilesRecursive)
    {
      txtFilesForPatch := [];
      var elements := TxtElements(qmake.version, os);
      if elements.None? {
        return false;
      }
      var es := elements.value;
      for i := 0 to |es|
        invariant txtFilesForPatch == TxtFileList(qtDir, es, i, findFiles, findFilesRecursive)
      {
        if es[i].recursive {
          txtFilesForPatch := txtFilesForPatch + findFilesRecursive(qtDir + es[i].dir, es[i].name);
        } else {
          txtFilesForPatch := txtFilesForPatch + findFiles(qtDir + es[i].dir, es[i].name);
        }
      }
      ok := true;
    }

    /** createBinFilesForPatchList, with the directory search as a parameter. */
    method CreateBinFilesForPatchList(findFiles: (string, string) -> seq<string>) returns (ok: bool)
      modifies this`binFilesForPatch
      ensures ok <==> qmake.version == '4' || qmake.version == '5'
      ensures binFilesForPatch ==
        match BinElements(qmake.version, os)
        case None => []
        case Some(es) => BinFileList(qtDir, es, |es|, findFiles)
    {
      binFilesForPatch := [];
      var elements := BinElements(qmake.version, os);
      if elements.None? {
        return false;
      }
      var es := elements.value;
      for i := 0 to |es|
        invariant binFilesForPatch == BinFileList(qtDir, es, i, findFiles)
      {
        binFilesForPatch := binFilesForPatch + findFiles(qtDir + es[i].dir, es[i].name);
      }
      ok := true;
    }

    /** The buffer work of patchTxtFile: the search is case-insensitive on Windows. */
    method PatchTxtFile(contents: string) returns (r: TxtFileResult)
      requires Valid()
      ensures r.Skipped? <==> contents == []
      ensures r.Rewritten? ==> r.data == ApplyTxt(contents, txtPatchValues, os == Windows)
    {
      r := TextPatch.PatchTxtFile(contents, txtPatchValues, os == Windows);
    }

    /** The buffer work of patchBinFile. */
    method PatchBinFile(contents: string) returns (r: BinFileResult)
      requires Valid() && NulFreeTable(binPatchValues)
      ensures r.ReadError? <==> contents == []
      ensures contents != [] ==>
        var p := BinApply(contents, binPatchValues);
        r == if p.overflow then Overflow else Written(p.buf)
      ensures r.Written? ==> |r.data| == |contents|
    {
      TableEntries(binPatchValues);
      r := BinPatch.PatchBinFile(contents, binPatchValues);
    }
  }

  /** The native form of a C string is a C string. */
  lemma NulFreeNative(d: string, os: Os)
    requires '\0' !in d
    ensures '\0' !in ToNativeSeparators(d, os)
  {
    var n := ToNativeSeparators(d, os);
    forall i | 0 <= i < |n| ensures n[i] != '\0' {
      assert d[i] != '\0';
    }
  }
}
