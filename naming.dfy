/** Names the program derives: the decimal row number of the fallback file
    name, and the output directory of a source (os.path.basename and
    os.path.splitext on POSIX paths, then the "json_output_" prefix). */
module Naming {

  predicate IsDigit(c: char) {
    '0' <= c <= '9'
  }

  predicate AllDigits(s: string) {
    forall k :: 0 <= k < |s| ==> IsDigit(s[k])
  }

  function DigitChar(d: nat): (c: char)
    requires d < 10
    ensures IsDigit(c) && c as int - '0' as int == d
  {
    ('0' as int + d) as char
  }

  /** The number a string of decimal digits denotes. */
  function DecimalValue(s: string): nat
    requires AllDigits(s)
  {
    if s == [] then 0 else 10 * DecimalValue(s[..|s| - 1]) + (s[|s| - 1] as int - '0' as int)
  }

  /** str(n) for a natural number: its decimal digits, without leading zeros. */
  function Decimal(n: nat): (r: string)
    ensures r != [] && AllDigits(r)
    ensures DecimalValue(r) == n
    ensures r[0] == '0' ==> r == "0"
    decreases n
  {
    if n < 10 then [DigitChar(n)]
    else
      var p := Decimal(n / 10);
      var r := p + [DigitChar(n % 10)];
      assert r[..|r| - 1] == p;
      r
  }

  /** Different numbers have different decimal forms. */
  lemma DecimalInjective(m: nat, n: nat)
    requires Decimal(m) == Decimal(n)
    ensures m == n
  {
  }

  /** The position of the last occurrence of c in s, or -1 when there is none
      (str.rfind). */
  function LastIndex(s: string, c: char): (r: int)
    ensures -1 <= r < |s|
    ensures r >= 0 ==> s[r] == c
    ensures forall k :: r < k < |s| ==> s[k] != c
    decreases |s|
  {
    if s == [] then -1
    else if s[|s| - 1] == c then |s| - 1
    else LastIndex(s[..|s| - 1], c)
  }

  /** No character of s is c. */
  predicate Lacks(s: string, c: char) {
    forall k :: 0 <= k < |s| ==> s[k] != c
  }

  /** os.path.splitext(p)[0] on POSIX: the last dot of the last path
      component starts the extension, unless only dots precede it in that
      component (a leading-dot name such as ".csv" has no extension). */
  function StripExtension(p: string): (r: string)
    ensures |r| <= |p| && r == p[..|r|]
    ensures r != p ==> p[|r|] == '.' && forall k :: |r| < k < |p| ==> p[k] != '.' && p[k] != '/'
    ensures (forall k :: LastIndex(p, '/') < k < LastIndex(p, '.') ==> p[k] == '.') ==> r == p
    ensures r != p <==> exists k :: LastIndex(p, '/') < k < LastIndex(p, '.') && p[k] != '.'
  {
    var sep := LastIndex(p, '/');
    var dot := LastIndex(p, '.');
    if dot > sep && exists k :: sep + 1 <= k < dot && p[k] != '.' then p[..dot] else p
  }

  /** os.path.basename on POSIX: what follows the last '/'. */
  function BaseName(p: string): (r: string)
    ensures |r| <= |p| && r == p[|p| - |r|..]
    ensures Lacks(r, '/')
    ensures |r| < |p| ==> p[|p| - |r| - 1] == '/'
  {
    p[LastIndex(p, '/') + 1..]
  }

  const OutputPrefix: string := "json_output_"

  /** The output directory of an input file as the batch names it. */
  function OutputDirName(file: string): (r: string)
    ensures |r| >= |OutputPrefix| && r[..|OutputPrefix|] == OutputPrefix
  {
    OutputPrefix + StripExtension(file)
  }

  /** The output directory of a file processed on its own: the directory part
      of the path is dropped first, so the name has no '/' after the prefix. */
  function SingleOutputDirName(path: string): (r: string)
    ensures |r| >= |OutputPrefix| && r[..|OutputPrefix|] == OutputPrefix
    ensures Lacks(r[|OutputPrefix|..], '/')
  {
    var b := BaseName(path);
    var s := StripExtension(b);
    PrefixLacks(b, |s|, '/');
    var r := OutputPrefix + s;
    assert r[|OutputPrefix|..] == s;
    r
  }

  /** A prefix of a string without c is without c. */
  lemma PrefixLacks(s: string, n: nat, c: char)
    requires n <= |s| && Lacks(s, c)
    ensures Lacks(s[..n], c)
  {
    forall k | 0 <= k < n ensures s[..n][k] != c {
      assert s[..n][k] == s[k];
    }
  }

  /** Only the last extension is removed: a stem that has a character other
      than a dot in its last path component gets back exactly that stem. */
  lemma StripExtensionOfAppended(stem: string, ext: string)
    requires Lacks(ext, '.') && Lacks(ext, '/')
    requires exists k :: LastIndex(stem, '/') < k < |stem| && stem[k] != '.'
    ensures StripExtension(stem + "." + ext) == stem
  {
    var p := stem + "." + ext;
    AppendedFacts(stem, ext);
    LastIndexOfPrefix(p, stem, '/');
    var k :| LastIndex(stem, '/') < k < |stem| && stem[k] != '.';
    StripExtensionAt(p, |stem|, k);
  }

  /** A dot that is the last one, after the last '/', and preceded in its
      component by a character other than a dot, starts the extension. */
  lemma StripExtensionAt(p: string, dot: nat, k: nat)
    requires k < dot < |p| && p[k] != '.'
    requires LastIndex(p, '.') == dot && LastIndex(p, '/') < k
    ensures StripExtension(p) == p[..dot]
  {
  }

  lemma AppendedFacts(stem: string, ext: string)
    requires Lacks(ext, '.') && Lacks(ext, '/')
    ensures var p := stem + "." + ext;
      && p[..|stem|] == stem
      && (forall k :: 0 <= k < |stem| ==> p[k] == stem[k])
      && p[|stem|] == '.'
      && (forall k :: |stem| <= k < |p| ==> p[k] != '/')
      && LastIndex(p, '.') == |stem|
  {
    var p := stem + "." + ext;
    forall k | |stem| < k < |p| ensures p[k] != '/' && p[k] != '.' {
      assert p[k] == ext[k - |stem| - 1];
    }
  }

  /** When nothing after the prefix is c, the last c of the whole string is
      the last c of the prefix. */
  lemma {:induction false} LastIndexOfPrefix(p: string, stem: string, c: char)
    requires |stem| <= |p| && p[..|stem|] == stem
    requires forall k :: |stem| <= k < |p| ==> p[k] != c
    ensures LastIndex(p, c) == LastIndex(stem, c)
    decreases |p|
  {
    if |p| > |stem| {
      assert p[..|p| - 1][..|stem|] == stem;
      LastIndexOfPrefix(p[..|p| - 1], stem, c);
    } else {
      assert p == stem;
    }
  }

  /** A string without c has no last c. */
  lemma {:induction false} LastIndexAbsent(s: string, c: char)
    requires Lacks(s, c)
    ensures LastIndex(s, c) == -1
    decreases |s|
  {
    if s != [] {
      LastIndexAbsent(s[..|s| - 1], c);
    }
  }

  /** A file name ending in ".csv" after a character that is neither a dot
      nor '/' loses exactly its ".csv", whatever comes before. */
  lemma CsvOutputDir(f: string)
    requires |f| >= 5 && f[|f| - 4..] == ".csv" && f[|f| - 5] != '.' && f[|f| - 5] != '/'
    ensures OutputDirName(f) == OutputPrefix + f[..|f| - 4]
  {
    var n := |f|;
    assert f[n - 4] == '.' && f[n - 3] == 'c' && f[n - 2] == 's' && f[n - 1] == 'v';
    assert LastIndex(f, '.') == n - 4;
    assert LastIndex(f, '/') < n - 5;
    var r := StripExtension(f);
    assert r != f;
    assert |r| == n - 4;
  }

  /** An input file named <stem>.csv, with a plain stem such as the batch's
      "guide_sequences_CD.fasta_filtered_by_seq", is written to
      json_output_<stem>: inner dots of the stem are kept. */
  lemma OutputDirOfCsv(stem: string)
    requires Lacks(stem, '/') && exists k :: 0 <= k < |stem| && stem[k] != '.'
    ensures OutputDirName(stem + ".csv") == OutputPrefix + stem
  {
    LastIndexAbsent(stem, '/');
    assert stem + ".csv" == stem + "." + "csv";
    StripExtensionOfAppended(stem, "csv");
  }

  /** A name with only dots before its last dot, such as ".csv", has no
      extension to remove. */
  lemma LeadingDotKept(p: string)
    requires Lacks(p, '/') && p != [] && p[0] == '.' && forall k :: 0 <= k < |p| && p[k] == '.' ==> k == 0
    ensures StripExtension(p) == p
  {
    LastIndexAbsent(p, '/');
  }

  /** A path without '/' is its own base name. */
  lemma BaseNameOfPlain(p: string)
    requires Lacks(p, '/')
    ensures BaseName(p) == p
  {
    LastIndexAbsent(p, '/');
  }

  /** The base name of dir/name is name. */
  lemma BaseNameAfterSlash(dir: string, name: string)
    requires Lacks(name, '/')
    ensures BaseName(dir + "/" + name) == name
  {
    var p := dir + "/" + name;
    forall k | |dir + "/"| <= k < |p| ensures p[k] != '/' {
      assert p[k] == name[k - |dir + "/"|];
    }
    assert p[|dir|] == '/';
    assert LastIndex(p, '/') == |dir|;
    assert p[|dir| + 1..] == name;
  }

  /** A file processed on its own, dir/<stem>.csv, is written to
      json_output_<stem>, whatever directory it lies in. */
  lemma SingleOutputDirOfCsv(dir: string, stem: string)
    requires Lacks(stem, '/') && exists k :: 0 <= k < |stem| && stem[k] != '.'
    ensures SingleOutputDirName(dir + "/" + stem + ".csv") == OutputPrefix + stem
  {
    var name := stem + ".csv";
    forall k | 0 <= k < |name| ensures name[k] != '/' {
      if k >= |stem| {
        assert name[k] == ".csv"[k - |stem|];
      }
    }
    assert dir + "/" + stem + ".csv" == dir + "/" + name;
    BaseNameAfterSlash(dir, name);
    OutputDirOfCsv(stem);
  }

  /** A file named <stem>.csv without a directory part is written to
      json_output_<stem> when processed on its own too. */
  lemma SingleOutputDirOfPlainCsv(stem: string)
    requires Lacks(stem, '/') && exists k :: 0 <= k < |stem| && stem[k] != '.'
    ensures SingleOutputDirName(stem + ".csv") == OutputPrefix + stem
  {
    var name := stem + ".csv";
    forall k | 0 <= k < |name| ensures name[k] != '/' {
      if k >= |stem| {
        assert name[k] == ".csv"[k - |stem|];
      }
    }
    BaseNameOfPlain(name);
    OutputDirOfCsv(stem);
  }
}
