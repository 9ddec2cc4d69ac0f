/**
 * TQMake: locating qmake, and reading the output of `qmake -query` into a
 * map from variable name to value.
 */
module QMake {
  import opened Wrappers
  import opened Strings
  import opened StdMap

  /** The delimiters handed to strtok: "\r\n". */
  predicate IsDelimiter(c: char)
  {
    c == '\r' || c == '\n'
  }

  /** What strtok sees of a std::string through c_str(): the text before its first NUL. */
  function CStr(s: string): (r: string)
    ensures '\0' !in r
    ensures |r| <= |s| && r == s[..|r|]
    ensures |r| < |s| ==> s[|r|] == '\0'
    ensures '\0' !in s ==> r == s
  {
    if s == [] || s[0] == '\0' then [] else [s[0]] + CStr(s[1..])
  }

  /** The length of the token at the start of s: its leading non-delimiter characters. */
  function TokenLen(s: string): (n: nat)
    ensures n <= |s|
    ensures forall k :: 0 <= k < n ==> !IsDelimiter(s[k])
    ensures n < |s| ==> IsDelimiter(s[n])
  {
    if s == [] || IsDelimiter(s[0]) then 0 else 1 + TokenLen(s[1..])
  }

  /** A maximal run of non-delimiters starting at i ends at j. */
  lemma {:induction false} TokenLenOfRun(s: string, i: nat, j: nat)
    requires i <= j <= |s|
    requires forall k :: i <= k < j ==> !IsDelimiter(s[k])
    requires j < |s| ==> IsDelimiter(s[j])
    ensures TokenLen(s[i..]) == j - i
    decreases j - i
  {
    if i < j {
      assert s[i..][1..] == s[i + 1..];
      TokenLenOfRun(s, i + 1, j);
    }
  }

  /** strtok at position i returns the run s[i..j] and resumes at j. */
  lemma TokensOfRun(s: string, i: nat, j: nat)
    requires i < j <= |s|
    requires forall k :: i <= k < j ==> !IsDelimiter(s[k])
    requires j < |s| ==> IsDelimiter(s[j])
    ensures Tokens(s[i..]) == [s[i..j]] + Tokens(s[j..])
  {
    TokenLenOfRun(s, i, j);
    assert s[i..][..j - i] == s[i..j] && s[i..][j - i..] == s[j..];
  }

  /**
   * The successive results of strtok(s, "\r\n"): runs of delimiters are
   * skipped, so blank lines produce no token.
   */
  function Tokens(s: string): seq<string>
    decreases |s|
  {
    if s == [] then []
    else if IsDelimiter(s[0]) then Tokens(s[1..])
    else
      var n := TokenLen(s);
      [s[..n]] + Tokens(s[n..])
  }

  /** Every token is non-empty and holds no delimiter. */
  lemma {:induction false} TokensWellFormed(s: string)
    ensures forall i :: 0 <= i < |Tokens(s)| ==>
      |Tokens(s)[i]| > 0 && forall k :: 0 <= k < |Tokens(s)[i]| ==> !IsDelimiter(Tokens(s)[i][k])
    decreases |s|
  {
    if s != [] {
      if IsDelimiter(s[0]) {
        TokensWellFormed(s[1..]);
      } else {
        TokensWellFormed(s[TokenLen(s)..]);
      }
    }
  }

  /** s with its delimiters dropped. */
  function NonDelimiters(s: string): string
  {
    if s == [] then [] else (if IsDelimiter(s[0]) then [] else [s[0]]) + NonDelimiters(s[1..])
  }

  function Concat(ts: seq<string>): string
  {
    if ts == [] then [] else ts[0] + Concat(ts[1..])
  }

  lemma {:induction false} NonDelimitersOfToken(s: string, n: nat)
    requires n <= |s| && forall k :: 0 <= k < n ==> !IsDelimiter(s[k])
    ensures NonDelimiters(s) == s[..n] + NonDelimiters(s[n..])
  {
    if n > 0 {
      NonDelimitersOfToken(s[1..], n - 1);
      assert s[1..][n - 1..] == s[n..];
      assert s[..n] == [s[0]] + s[1..][..n - 1];
    }
  }

  /** Tokenising loses exactly the delimiters: the tokens put together are the text without them. */
  lemma {:induction false} TokensCoverText(s: string)
    ensures Concat(Tokens(s)) == NonDelimiters(s)
    decreases |s|
  {
    if s != [] {
      if IsDelimiter(s[0]) {
        TokensCoverText(s[1..]);
      } else {
        var n := TokenLen(s);
        TokensCoverText(s[n..]);
        NonDelimitersOfToken(s, n);
        assert Concat([s[..n]] + Tokens(s[n..])) == s[..n] + Concat(Tokens(s[n..]));
      }
    }
  }

  /** A delimiter ends whatever token is in progress: text on either side is tokenised separately. */
  lemma {:induction false} TokensAppend(a: string, d: char, b: string)
    requires IsDelimiter(d)
    ensures Tokens(a + [d] + b) == Tokens(a) + Tokens(b)
    decreases |a|
  {
    var s := a + [d] + b;
    if a == [] {
      assert s[1..] == b;
    } else if IsDelimiter(a[0]) {
      assert s[1..] == a[1..] + [d] + b;
      TokensAppend(a[1..], d, b);
    } else {
      var m := FirstTokenAppend(a, d, b);
      TokensAppend(a[m..], d, b);
      assert Tokens(s) == [a[..m]] + Tokens(a[m..] + [d] + b);
    }
  }

  /** The first token of a + [d] + b lies inside a, when a starts with one. */
  lemma FirstTokenAppend(a: string, d: char, b: string) returns (m: nat)
    requires IsDelimiter(d) && a != [] && !IsDelimiter(a[0])
    ensures m == TokenLen(a) && 0 < m <= |a|
    ensures Tokens(a) == [a[..m]] + Tokens(a[m..])
    ensures Tokens(a + [d] + b) == [a[..m]] + Tokens(a[m..] + [d] + b)
  {
    var s := a + [d] + b;
    m := TokenLen(a);
    assert forall k :: 0 <= k < |a| ==> s[k] == a[k];
    if m < |a| {
      assert IsDelimiter(s[m]);
    } else {
      assert IsDelimiter(s[|a|]);
    }
    TokensOfRun(s, 0, m);
    assert s[0..] == s && s[0..m] == a[..m];
    assert s[m..] == a[m..] + [d] + b;
  }

  /** string::find(':') */
  function IndexOf(s: string, c: char): (r: Option<nat>)
    ensures r.Some? ==> r.value < |s| && s[r.value] == c && c !in s[..r.value]
    ensures r.None? ==> c !in s
  {
    if s == [] then None
    else if s[0] == c then Some(0)
    else match IndexOf(s[1..], c)
      case None => None
      case Some(i) =>
        assert s[..i + 1] == [s[0]] + s[1..][..i];
        Some(i + 1)
  }

  /** A line split at its first ':' into key and value; None for a line without ':'. */
  function SplitLine(line: string): (r: Option<(string, string)>)
    ensures r.None? <==> ':' !in line
    ensures r.Some? ==> ':' !in r.value.0 && line == r.value.0 + ":" + r.value.1
  {
    match IndexOf(line, ':')
    case None => None
    case Some(i) => Some((line[..i], line[i + 1..]))
  }

  /** The key is everything before the first ':' and the value everything after it, colons included. */
  lemma SplitAtFirstColon(k: string, v: string)
    requires ':' !in k
    ensures SplitLine(k + ":" + v) == Some((k, v))
  {
    var line := k + ":" + v;
    assert line[|k|] == ':';
    assert line[..|k|] == k && line[|k| + 1..] == v;
  }

  /** The strtok loop of parse: fill m from the tokens; stop with false at a line without ':'. */
  function Fill(m: seq<Entry<string>>, tokens: seq<string>): (r: (seq<Entry<string>>, bool))
    requires Valid(m)
    ensures Valid(r.0)
    decreases tokens
  {
    if tokens == [] then (m, true)
    else match SplitLine(tokens[0])
      case None => (m, false)
      case Some((k, v)) => Fill(Put(m, k, v), tokens[1..])
  }

  /** TQMake::value: the stored value of a variable, or "" when qmake did not report it. */
  function Value(values: seq<Entry<string>>, variable: string): (r: string)
    ensures variable in Keys(values) ==> Get(values, variable) == Some(r)
    ensures variable !in Keys(values) ==> r == ""
  {
    match Get(values, variable)
    case Some(v) => v
    case None => ""
  }

  /** The first character of QT_VERSION, or the NUL character when it is missing or empty. */
  function VersionOf(values: seq<Entry<string>>): char
  {
    var v := Value(values, "QT_VERSION");
    if v != [] then v[0] else '\0'
  }

  datatype Parsed = Parsed(values: seq<Entry<string>>, version: char, success: bool)

  /** The state TQMake::parse leaves, and what it returns, for a given qmake output. */
  function ParseOutput(output: string): (p: Parsed)
    ensures Valid(p.values)
    ensures output == [] ==> p == Parsed([], '\0', false)
    ensures !p.success ==> p.version == '\0'
  {
    if output == [] then Parsed([], '\0', false)
    else
      var (m, ok) := Fill([], Tokens(CStr(output)));
      if ok then Parsed(m, VersionOf(m), true) else Parsed(m, '\0', false)
  }

  lemma {:induction false} FillAppend(m: seq<Entry<string>>, ts: seq<string>, t: string)
    requires Valid(m) && Fill(m, ts).1
    ensures Fill(m, ts + [t]) == Fill(Fill(m, ts).0, [t])
    decreases ts
  {
    if ts != [] {
      assert (ts + [t])[1..] == ts[1..] + [t];
      var kv := SplitLine(ts[0]).value;
      FillAppend(Put(m, kv.0, kv.1), ts[1..], t);
    }
  }

  /**
   * A line without ':' after output that parses: parse fails, the entries
   * read before it stay in the map, and the version stays NUL.
   */
  lemma LineWithoutColon(a: string, line: string)
    requires ParseOutput(a).success && '\0' !in a
    requires line != [] && ':' !in line && '\0' !in line
    requires forall k :: 0 <= k < |line| ==> !IsDelimiter(line[k])
    ensures ParseOutput(a + "\n" + line) == Parsed(ParseOutput(a).values, '\0', false)
  {
    LastLine(a, line);
    assert IndexOf(line, ':') == None;
  }

  /**
   * A line without ':' stops parse wherever it stands: parse fails, the
   * entries read before it stay in the map, the lines after it are never
   * read, and the version stays NUL.
   */
  lemma LineWithoutColonStops(a: string, line: string, b: string)
    requires ParseOutput(a).success && '\0' !in a && '\0' !in b
    requires line != [] && ':' !in line && '\0' !in line
    requires forall k :: 0 <= k < |line| ==> !IsDelimiter(line[k])
    ensures ParseOutput(a + "\n" + line + "\n" + b) == Parsed(ParseOutput(a).values, '\0', false)
  {
    var s := a + "\n" + line + "\n" + b;
    NulFreeJoin(a, line);
    NulFreeJoin(a + "\n" + line, b);
    assert s == a + ['\n'] + (line + ['\n'] + b);
    TokensAppend(a, '\n', line + ['\n'] + b);
    TokensAppend(line, '\n', b);
    SingleToken(line);
    assert Tokens(CStr(s)) == Tokens(a) + [line] + Tokens(b);
    assert IndexOf(line, ':') == None;
    FillStops([], Tokens(a), line, Tokens(b));
  }

  /** A first line without ':' stops parse at once: nothing is stored and the version stays NUL. */
  lemma FirstLineWithoutColon(line: string, b: string)
    requires '\0' !in b
    requires line != [] && ':' !in line && '\0' !in line
    requires forall k :: 0 <= k < |line| ==> !IsDelimiter(line[k])
    ensures ParseOutput(line + "\n" + b) == Parsed([], '\0', false)
  {
    NulFreeJoin(line, b);
    assert line + "\n" + b == line + ['\n'] + b;
    TokensAppend(line, '\n', b);
    SingleToken(line);
    assert IndexOf(line, ':') == None;
    assert [] + [line] + Tokens(b) == [line] + Tokens(b);
    FillStops([], [], line, Tokens(b));
  }

  /** Output that is one line without ':' makes parse fail with nothing stored. */
  lemma OnlyLineWithoutColon(line: string)
    requires line != [] && ':' !in line && '\0' !in line
    requires forall k :: 0 <= k < |line| ==> !IsDelimiter(line[k])
    ensures ParseOutput(line) == Parsed([], '\0', false)
  {
    SingleToken(line);
    assert IndexOf(line, ':') == None;
  }

  /** The strtok loop stops at a line without ':' and ignores the tokens after it. */
  lemma {:induction false} FillStops(m: seq<Entry<string>>, ts: seq<string>, line: string, rest: seq<string>)
    requires Valid(m) && Fill(m, ts).1 && SplitLine(line).None?
    ensures Fill(m, ts + [line] + rest) == (Fill(m, ts).0, false)
    decreases ts
  {
    if ts == [] {
      assert (ts + [line] + rest)[0] == line;
    } else {
      assert (ts + [line] + rest)[0] == ts[0];
      assert (ts + [line] + rest)[1..] == ts[1..] + [line] + rest;
      var kv := SplitLine(ts[0]).value;
      FillStops(Put(m, kv.0, kv.1), ts[1..], line, rest);
    }
  }

  /**
   * A later line "key:value" wins over any earlier line with the same key,
   * and its value is everything after the first ':'.
   */
  lemma LaterLineWins(a: string, k: string, v: string)
    requires ParseOutput(a).success && '\0' !in a
    requires ':' !in k && '\0' !in k + ":" + v
    requires forall i :: 0 <= i < |k + ":" + v| ==> !IsDelimiter((k + ":" + v)[i])
    ensures var p := ParseOutput(a + "\n" + k + ":" + v);
      p.success && Value(p.values, k) == v
  {
    var line := k + ":" + v;
    ConcatAssoc(a + "\n", k, ":");
    ConcatAssoc(a + "\n", k + ":", v);
    LastLine(a, line);
    SplitAtFirstColon(k, v);
    FillOneLine(Fill([], Tokens(a)).0, line);
  }

  /** No line among the tokens sets the variable k. */
  predicate NoLineSets(ts: seq<string>, k: string)
  {
    forall i :: 0 <= i < |ts| ==> SplitLine(ts[i]).None? || SplitLine(ts[i]).value.0 != k
  }

  /**
   * A line "key:value" anywhere in output that parses sets key to value
   * unless a later line sets it again; a variable the line does not name,
   * and no later line names, keeps the value the lines before it gave.
   */
  lemma LaterLineWinsAnywhere(a: string, k: string, v: string, b: string)
    requires ParseOutput(a).success && '\0' !in a && '\0' !in b
    requires ':' !in k && '\0' !in k + ":" + v
    requires forall i :: 0 <= i < |k + ":" + v| ==> !IsDelimiter((k + ":" + v)[i])
    requires ParseOutput(a + "\n" + (k + ":" + v) + "\n" + b).success
    requires NoLineSets(Tokens(b), k)
    ensures var p := ParseOutput(a + "\n" + (k + ":" + v) + "\n" + b);
      Value(p.values, k) == v &&
      forall k' :: k' != k && NoLineSets(Tokens(b), k') ==>
        Value(p.values, k') == Value(ParseOutput(a).values, k')
  {
    var line := k + ":" + v;
    var s := a + "\n" + line + "\n" + b;
    LineBetween(a, line, b);
    SplitAtFirstColon(k, v);
    var ma := Fill([], Tokens(a)).0;
    FillAppend([], Tokens(a), line);
    FillOneLine(ma, line);
    FillSplit([], Tokens(a) + [line], Tokens(b));
    var m := Fill(Put(ma, k, v), Tokens(b)).0;
    assert ParseOutput(s).values == m;
    FillKeeps(Put(ma, k, v), Tokens(b), k);
    forall k' | k' != k && NoLineSets(Tokens(b), k')
      ensures Value(m, k') == Value(ParseOutput(a).values, k')
    {
      FillKeeps(Put(ma, k, v), Tokens(b), k');
    }
  }

  /**
   * A first line "key:value" of output that parses sets key to value unless
   * a later line sets it again; a variable that no line sets is missing, so
   * value() gives "" for it.
   */
  lemma FirstLineSets(k: string, v: string, b: string)
    requires ':' !in k && '\0' !in k + ":" + v && '\0' !in b
    requires forall i :: 0 <= i < |k + ":" + v| ==> !IsDelimiter((k + ":" + v)[i])
    requires ParseOutput((k + ":" + v) + "\n" + b).success
    requires NoLineSets(Tokens(b), k)
    ensures var p := ParseOutput((k + ":" + v) + "\n" + b);
      Value(p.values, k) == v &&
      forall k' :: k' != k && NoLineSets(Tokens(b), k') ==> Value(p.values, k') == ""
  {
    var line := k + ":" + v;
    NulFreeJoin(line, b);
    assert line + "\n" + b == line + ['\n'] + b;
    TokensAppend(line, '\n', b);
    SingleToken(line);
    SplitAtFirstColon(k, v);
    assert ([line] + Tokens(b))[1..] == Tokens(b);
    var m := Fill(Put([], k, v), Tokens(b)).0;
    assert ParseOutput(line + "\n" + b).values == m;
    FillKeeps(Put([], k, v), Tokens(b), k);
    forall k' | k' != k && NoLineSets(Tokens(b), k')
      ensures Value(m, k') == ""
    {
      FillKeeps(Put([], k, v), Tokens(b), k');
    }
  }

  /** Output that is one line "key:value" parses to that one variable. */
  lemma OnlyLineSets(k: string, v: string)
    requires ':' !in k && '\0' !in k + ":" + v
    requires forall i :: 0 <= i < |k + ":" + v| ==> !IsDelimiter((k + ":" + v)[i])
    ensures var p := ParseOutput(k + ":" + v);
      p.success && Keys(p.values) == {k} && Value(p.values, k) == v
  {
    var line := k + ":" + v;
    SingleToken(line);
    SplitAtFirstColon(k, v);
    FillOneLine([], line);
    assert Keys<string>([]) == {};
  }

  /** The tokens of a + "\n" + line + "\n" + b, for a line that is one token. */
  lemma LineBetween(a: string, line: string, b: string)
    requires '\0' !in a && '\0' !in b && '\0' !in line && line != []
    requires forall i :: 0 <= i < |line| ==> !IsDelimiter(line[i])
    ensures Tokens(CStr(a + "\n" + line + "\n" + b)) == Tokens(a) + [line] + Tokens(b)
  {
    var s := a + "\n" + line + "\n" + b;
    NulFreeJoin(a, line);
    NulFreeJoin(a + "\n" + line, b);
    assert s == a + ['\n'] + (line + ['\n'] + b);
    TokensAppend(a, '\n', line + ['\n'] + b);
    TokensAppend(line, '\n', b);
    SingleToken(line);
  }

  /** The strtok loop over two runs of tokens: the second continues from the map of the first. */
  lemma {:induction false} FillSplit(m: seq<Entry<string>>, ts: seq<string>, us: seq<string>)
    requires Valid(m) && Fill(m, ts).1
    ensures Fill(m, ts + us) == Fill(Fill(m, ts).0, us)
    decreases ts
  {
    if ts == [] {
      assert ts + us == us;
    } else {
      assert (ts + us)[0] == ts[0];
      assert (ts + us)[1..] == ts[1..] + us;
      var kv := SplitLine(ts[0]).value;
      FillSplit(Put(m, kv.0, kv.1), ts[1..], us);
    }
  }

  /** The strtok loop leaves alone a variable that none of its lines sets. */
  lemma {:induction false} FillKeeps(m: seq<Entry<string>>, ts: seq<string>, k: string)
    requires Valid(m) && NoLineSets(ts, k)
    ensures Get(Fill(m, ts).0, k) == Get(m, k)
    decreases ts
  {
    if ts != [] && SplitLine(ts[0]).Some? {
      var kv := SplitLine(ts[0]).value;
      assert SplitLine(ts[0]).value.0 != k;
      assert NoLineSets(ts[1..], k) by {
        forall i | 0 <= i < |ts[1..]|
          ensures SplitLine(ts[1..][i]).None? || SplitLine(ts[1..][i]).value.0 != k
        {
          assert ts[1..][i] == ts[i + 1];
        }
      }
      FillKeeps(Put(m, kv.0, kv.1), ts[1..], k);
    }
  }

  /** Fill on one line that has a ':'. */
  lemma FillOneLine(m: seq<Entry<string>>, line: string)
    requires Valid(m) && SplitLine(line).Some?
    ensures Fill(m, [line]) == (Put(m, SplitLine(line).value.0, SplitLine(line).value.1), true)
  {
    assert [line][1..] == [];
  }

  /** The tokens of a + "\n" + line, for a line that is one token. */
  lemma LastLine(a: string, line: string)
    requires ParseOutput(a).success && '\0' !in a
    requires line != [] && '\0' !in line
    requires forall k :: 0 <= k < |line| ==> !IsDelimiter(line[k])
    ensures a + "\n" + line != []
    ensures Tokens(CStr(a + "\n" + line)) == Tokens(a) + [line]
    ensures Fill([], Tokens(a)).1
    ensures Fill([], Tokens(a) + [line]) == Fill(Fill([], Tokens(a)).0, [line])
  {
    NulFreeJoin(a, line);
    assert a + "\n" + line == a + ['\n'] + line;
    TokensAppend(a, '\n', line);
    SingleToken(line);
    FillAppend([], Tokens(a), line);
  }

  lemma NulFreeJoin(a: string, line: string)
    requires '\0' !in a && '\0' !in line
    ensures '\0' !in a + "\n" + line
  {
    var s := a + "\n" + line;
    forall i | 0 <= i < |s| ensures s[i] != '\0' {
      if i < |a| { assert s[i] == a[i]; } else if i > |a| { assert s[i] == line[i - |a| - 1]; }
    }
  }

  /** A non-empty text without delimiters is a single token. */
  lemma SingleToken(line: string)
    requires line != []
    requires forall k :: 0 <= k < |line| ==> !IsDelimiter(line[k])
    ensures Tokens(line) == [line]
  {
    assert !IsDelimiter(line[0]);
    assert TokenLen(line) == |line|;
    assert line[..|line|] == line && line[|line|..] == [];
  }

  /** The end of the token strtok returns when it starts at the non-delimiter s[i]. */
  method TokenEnd(s: string, i: nat) returns (j: nat)
    requires i < |s| && !IsDelimiter(s[i])
    ensures i < j <= |s|
    ensures forall k :: i <= k < j ==> !IsDelimiter(s[k])
    ensures j < |s| ==> IsDelimiter(s[j])
  {
    j := i + 1;
    while j < |s| && !IsDelimiter(s[j])
      invariant i < j <= |s|
      invariant forall k :: i <= k < j ==> !IsDelimiter(s[k])
    {
      j := j + 1;
    }
  }

  /** strtok skips a delimiter. */
  lemma SkipDelimiter(s: string, i: nat)
    requires i < |s| && IsDelimiter(s[i])
    ensures Tokens(s[i..]) == Tokens(s[i + 1..])
  {
    assert s[i..][1..] == s[i + 1..];
  }

  /** One token of the strtok loop: a line without ':' stops it, any other line is stored. */
  lemma FillToken(m: seq<Entry<string>>, s: string, i: nat, j: nat)
    requires Valid(m) && i < j <= |s|
    requires forall k :: i <= k < j ==> !IsDelimiter(s[k])
    requires j < |s| ==> IsDelimiter(s[j])
    ensures SplitLine(s[i..j]).None? ==> Fill(m, Tokens(s[i..])) == (m, false)
    ensures SplitLine(s[i..j]).Some? ==>
      var kv := SplitLine(s[i..j]).value;
      Fill(m, Tokens(s[i..])) == Fill(Put(m, kv.0, kv.1), Tokens(s[j..]))
  {
    TokensOfRun(s, i, j);
    assert ([s[i..j]] + Tokens(s[j..]))[1..] == Tokens(s[j..]);
  }

  class QMake {
    const os: Os
    var qmakePath: string
    var qtPath: string
    var output: string
    var values: seq<Entry<string>>
    var version: char

    constructor (os: Os)
      ensures this.os == os && version == '\0'
      ensures qmakePath == [] && qtPath == [] && output == [] && values == []
    {
      this.os := os;
      qmakePath, qtPath, output, values := [], [], [], [];
      version := '\0';
    }

    /** The name of the qmake executable on this platform. */
    function QMakeName(): string
      reads this
    {
      if os == Windows then "qmake.exe" else "qmake"
    }

    /**
     * TQMake::find. The file system is the predicate `isFileExists` and the
     * working directory is `currentDir`. With no Qt directory given, qmake
     * is looked for in the working directory, whose parent is then the Qt
     * directory, and else in its "bin" sub-directory.
     */
    method Find(qtDir: string, currentDir: string, isFileExists: string -> bool) returns (found: bool)
      modifies this`qmakePath, this`qtPath, this`version
      ensures version == '\0'
      ensures found <==> qmakePath != []
      ensures var sep := NativeSeparator(os);
        var inBin := qtDir + [sep] + "bin" + [sep] + QMakeName();
        var here := currentDir + [sep] + QMakeName();
        var hereBin := currentDir + [sep] + "bin" + [sep] + QMakeName();
        if qtDir != [] then
          if isFileExists(inBin) then qmakePath == inBin && qtPath == qtDir
          else qmakePath == [] && qtPath == []
        else if isFileExists(here) then qmakePath == here && qtPath == OneLevelUp(currentDir, sep)
        else if isFileExists(hereBin) then qmakePath == hereBin && qtPath == currentDir
        else qmakePath == [] && qtPath == []
    {
      qmakePath, qtPath := [], [];
      version := '\0';
      var sep := NativeSeparator(os);
      if qtDir != [] {
        qmakePath := qtDir + [sep] + "bin" + [sep] + QMakeName();
        if isFileExists(qmakePath) {
          qtPath := qtDir;
        } else {
          qmakePath := [];
        }
      } else {
        qmakePath := currentDir + [sep] + QMakeName();
        if isFileExists(qmakePath) {
          qtPath := OneLevelUp(currentDir, sep);
        } else {
          qmakePath := currentDir + [sep] + "bin" + [sep] + QMakeName();
          if !isFileExists(qmakePath) {
            qmakePath := [];
          } else {
            qtPath := currentDir;
          }
        }
      }
      found := qmakePath != [];
    }

    /** TQMake::query, with what `qmake -query` prints given as `programOutput`. */
    method Query(programOutput: string) returns (ok: bool)
      modifies this`output
      ensures output == if qmakePath != [] then programOutput else []
      ensures ok <==> output != []
    {
      output := [];
      if qmakePath != [] {
        output := programOutput;
      }
      ok := output != [];
    }

    /** TQMake::parse: the strtok loop over the output. */
    method Parse() returns (ok: bool)
      modifies this`values, this`version
      ensures Valid(values)
      ensures ParseOutput(output) == Parsed(values, version, ok)
    {
      values := [];
      version := '\0';
      if output == [] {
        return false;
      }
      var s := CStr(output);
      var i := 0;
      while i < |s|
        invariant i <= |s| && Valid(values) && version == '\0'
        invariant Fill(values, Tokens(s[i..])) == Fill([], Tokens(s))
      {
        if IsDelimiter(s[i]) {
          SkipDelimiter(s, i);
          i := i + 1;
        } else {
          var j := TokenEnd(s, i);
          FillToken(values, s, i, j);
          match SplitLine(s[i..j])
          case None =>
            return false;
          case Some((key, value)) =>
            values := Put(values, key, value);
          i := j;
        }
      }
      assert s[|s|..] == [];
      assert Fill([], Tokens(s)) == (values, true);
      var v := Value(values, "QT_VERSION");
      if v != [] {
        version := v[0];
      }
      ok := true;
    }
  }

  /** string::find_last_of(c) */
  function LastIndexOf(s: string, c: char): (r: Option<nat>)
    ensures r.Some? ==> r.value < |s| && s[r.value] == c && c !in s[r.value + 1..]
    ensures r.None? ==> c !in s
  {
    if s == [] then None
    else if s[|s| - 1] == c then Some(|s| - 1)
    else
      var r := LastIndexOf(s[..|s| - 1], c);
      assert r.Some? ==> s[r.value + 1..] == s[..|s| - 1][r.value + 1..] + [s[|s| - 1]];
      assert r.None? ==> s == s[..|s| - 1] + [s[|s| - 1]];
      r
  }

  /**
   * "One level up" in TQMake::find: the directory cut at its last
   * separator, unless there is none or it is the last character.
   */
  function OneLevelUp(dir: string, sep: char): (r: string)
    ensures r == dir <==> (sep !in dir || dir[|dir| - 1] == sep)
    ensures r != dir ==>
      exists tail :: dir == r + [sep] + tail && tail != [] && sep !in tail
  {
    match LastIndexOf(dir, sep)
    case Some(pos) =>
      if pos < |dir| - 1 then
        assert dir == dir[..pos] + [sep] + dir[pos + 1..];
        dir[..pos]
      else dir
    case None => dir
  }
}
