/**
  The names the splitter gives its output: sheet titles `Batch_<n>`, file
  names `Batch_<n>.xlsx`, the paths those files are saved under in the
  scratch directory, and the archive entry names taken from those paths.
 */
module Naming {

  predicate IsDigits(s: string)
  {
    forall i :: 0 <= i < |s| ==> '0' <= s[i] <= '9'
  }

  /** The character of a decimal digit. */
  function Digit(d: nat): (c: char)
    requires d < 10
    ensures '0' <= c <= '9'
    ensures c as int - '0' as int == d
  {
    ('0' as int + d) as char
  }

  /** The decimal numeral of `n`, most significant digit first, with no
      leading zero: the text Python's str(n) gives a non-negative int. */
  function Decimal(n: nat): (s: string)
    ensures |s| >= 1 && IsDigits(s)
    ensures s[0] == '0' ==> n == 0
  {
    if n < 10 then [Digit(n)] else Decimal(n / 10) + [Digit(n % 10)]
  }

  /** The number a string of decimal digits denotes. */
  function ParseDecimal(s: string): nat
    requires IsDigits(s)
  {
    if s == [] then 0
    else ParseDecimal(s[..|s| - 1]) * 10 + (s[|s| - 1] as int - '0' as int)
  }

  /** Reading a numeral back gives the number it was written from. */
  lemma {:induction false} DecimalRoundTrip(n: nat)
    ensures ParseDecimal(Decimal(n)) == n
  {
    if n >= 10 {
      var s := Decimal(n);
      assert s[..|s| - 1] == Decimal(n / 10);
      DecimalRoundTrip(n / 10);
    }
  }

  /** Different numbers have different numerals. */
  lemma DecimalInjective(a: nat, b: nat)
    ensures Decimal(a) == Decimal(b) ==> a == b
  {
    DecimalRoundTrip(a);
    DecimalRoundTrip(b);
  }

  /** The title of the sheet of batch number `k` (counted from 1). */
  function BatchTitle(k: nat): (title: string)
    ensures "Batch_" <= title && |title| > 6
  {
    "Batch_" + Decimal(k)
  }

  /** The title reads back as its batch number, so distinct batches get distinct titles. */
  lemma BatchTitleNamesBatch(j: nat, k: nat)
    ensures IsDigits(BatchTitle(k)[6..]) && ParseDecimal(BatchTitle(k)[6..]) == k
    ensures BatchTitle(j) == BatchTitle(k) ==> j == k
  {
    assert BatchTitle(k)[6..] == Decimal(k);
    assert BatchTitle(j)[6..] == Decimal(j);
    DecimalRoundTrip(k);
    DecimalRoundTrip(j);
  }

  /** The file batch number `k` is saved as. */
  function FileName(k: nat): (name: string)
    ensures BatchTitle(k) <= name && |name| == |BatchTitle(k)| + 5
  {
    BatchTitle(k) + ".xlsx"
  }

  /** File names never contain a path separator, and different batch
      numbers give different file names. */
  lemma FileNameInjective(j: nat, k: nat)
    ensures '/' !in FileName(k)
    ensures FileName(j) == FileName(k) ==> j == k
  {
    var dk := Decimal(k);
    assert FileName(k) == "Batch_" + dk + ".xlsx";
    assert forall i :: 0 <= i < |dk| ==> dk[i] != '/';
    if FileName(j) == FileName(k) {
      var fj, fk := FileName(j), FileName(k);
      assert Decimal(j) == fj[6 .. |fj| - 5];
      assert Decimal(k) == fk[6 .. |fk| - 5];
      DecimalInjective(j, k);
    }
  }

  /** POSIX path joining of a relative name (one that does not start with
      '/'): `name` appended to `dir` with one separator between them, none
      added after an empty directory or one that already ends in a separator. */
  function Join(dir: string, name: string): (path: string)
    requires name == [] || name[0] != '/'
    ensures |dir| + |name| <= |path| <= |dir| + 1 + |name|
    ensures path[..|dir|] == dir && path[|path| - |name|..] == name
    ensures |path| == |dir| + |name| + 1 ==> path[|dir|] == '/'
  {
    if dir == [] || dir[|dir| - 1] == '/' then dir + name else dir + "/" + name
  }

  /** The last component of a POSIX path: the longest suffix free of '/'. */
  function Basename(path: string): (name: string)
    ensures '/' !in name
    ensures |name| <= |path| && path[|path| - |name|..] == name
  {
    if path == [] || path[|path| - 1] == '/' then []
    else Basename(path[..|path| - 1]) + [path[|path| - 1]]
  }

  /** The basename is the whole path or stops right after a separator, so no
      longer separator-free suffix exists. */
  lemma {:induction false} BasenameIsLongest(path: string)
    ensures var name := Basename(path);
      |name| == |path| || path[|path| - |name| - 1] == '/'
  {
    if path != [] && path[|path| - 1] != '/' {
      var init := path[..|path| - 1];
      BasenameIsLongest(init);
      assert Basename(path) == Basename(init) + [path[|path| - 1]];
    }
  }

  /** After a separator (or at the start), a separator-free name is the basename. */
  lemma {:induction false} BasenameAfterSeparator(prefix: string, name: string)
    requires prefix == [] || prefix[|prefix| - 1] == '/'
    requires '/' !in name
    ensures Basename(prefix + name) == name
  {
    var p := prefix + name;
    if name == [] {
      assert p == prefix;
    } else {
      var init, last := name[..|name| - 1], name[|name| - 1];
      assert p[..|p| - 1] == prefix + init;
      assert p[|p| - 1] == last;
      assert last != '/';
      assert Basename(p) == Basename(prefix + init) + [last];
      BasenameAfterSeparator(prefix, init);
      assert name == init + [last];
    }
  }

  /** A file saved under Join(dir, name) is stored in the archive as `name`. */
  lemma BasenameOfJoin(dir: string, name: string)
    requires name == [] || name[0] != '/'
    requires '/' !in name
    ensures Basename(Join(dir, name)) == name
  {
    if dir == [] || dir[|dir| - 1] == '/' {
      BasenameAfterSeparator(dir, name);
    } else {
      BasenameAfterSeparator(dir + "/", name);
      assert dir + "/" + name == (dir + "/") + name;
    }
  }

  /** The paths of the first `count` batch files in the scratch directory, in batch order. */
  function OutputPaths(tempDir: string, count: nat): (paths: seq<string>)
    ensures |paths| == count
  {
    seq(count, i requires 0 <= i < count => Join(tempDir, FileName(i + 1)))
  }

  /** One more batch adds its path at the end. */
  lemma OutputPathsExtend(tempDir: string, count: nat)
    ensures OutputPaths(tempDir, count + 1) == OutputPaths(tempDir, count) + [Join(tempDir, FileName(count + 1))]
  {
  }

  /** The archive entry names for `count` batches: Batch_1.xlsx .. Batch_<count>.xlsx. */
  function ArchiveNames(count: nat): (names: seq<string>)
    ensures |names| == count
  {
    seq(count, i requires 0 <= i < count => FileName(i + 1))
  }

  /** Batch file `k` is saved under a path whose basename is its file name. */
  lemma OutputPathBasename(tempDir: string, k: nat)
    ensures Basename(Join(tempDir, FileName(k))) == FileName(k)
  {
    FileNameInjective(k, k);
    BasenameOfJoin(tempDir, FileName(k));
  }

  /** The basename of each output path is the archive name of its batch. */
  lemma ArchiveNamesOfOutputPaths(tempDir: string, count: nat)
    ensures forall i :: 0 <= i < count ==> Basename(OutputPaths(tempDir, count)[i]) == ArchiveNames(count)[i]
  {
    var paths, names := OutputPaths(tempDir, count), ArchiveNames(count);
    forall i | 0 <= i < count
      ensures Basename(paths[i]) == names[i]
    {
      assert paths[i] == Join(tempDir, FileName(i + 1));
      assert names[i] == FileName(i + 1);
      OutputPathBasename(tempDir, i + 1);
    }
  }

  /** No two batches share an archive name. */
  lemma ArchiveNamesDistinct(count: nat)
    ensures forall i, j :: 0 <= i < j < count ==> ArchiveNames(count)[i] != ArchiveNames(count)[j]
  {
    var names := ArchiveNames(count);
    forall i, j | 0 <= i < j < count
      ensures names[i] != names[j]
    {
      FileNameInjective(i + 1, j + 1);
    }
  }
}
