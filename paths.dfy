/**
 * The POSIX path operations the filler relies on: `os.path.join`,
 * `os.path.basename`, `os.path.dirname`, and the `name` and `suffix` of a
 * `pathlib` path.
 */
module PosixPath {
  import opened Strings

  const Sep: char := '/'

  /** `s` holds no separator. */
  predicate NoSep(s: string) {
    forall j :: 0 <= j < |s| ==> s[j] != Sep
  }

  /** `os.path.join(a, b)`: an absolute `b` wins; otherwise one separator goes between them. */
  function Join(a: string, b: string): (r: string)
    ensures |b| > 0 && b[0] == Sep ==> r == b
    ensures r == a + b || r == a + [Sep] + b || r == b
    ensures r[|r| - |b|..] == b
  {
    if |b| > 0 && b[0] == Sep then b
    else if a == [] || a[|a| - 1] == Sep then a + b
    else a + [Sep] + b
  }

  /** `os.path.basename(p)`: everything after the last separator. */
  function Basename(p: string): (r: string)
    ensures NoSep(r)
    ensures |r| <= |p| && r == p[|p| - |r|..]
  {
    p[RFind(p, Sep) + 1..]
  }

  /** True when `s` is made of separators only (the empty string included). */
  predicate AllSeps(s: string) {
    AllIn(s, {Sep})
  }

  /**
   * `os.path.dirname(p)`: everything up to the last separator, with trailing
   * separators dropped unless that leaves the root.
   */
  function Dirname(p: string): (r: string)
    ensures |r| <= |p| && r == p[..|r|]
  {
    var head := p[..RFind(p, Sep) + 1];
    if head != [] && !AllSeps(head) then RStrip(head, {Sep}) else head
  }

  /** What `Dirname` gives back for a directory `dir` that a name was joined onto. */
  function DirOf(dir: string): string {
    if AllSeps(dir) then dir else RStrip(dir, {Sep})
  }

  /**
   * The `name` of a `pathlib` path: its last component, where empty
   * components and `.` components do not count.
   */
  function Name(p: string): (r: string)
    ensures NoSep(r) && r != "."
    decreases |p|
  {
    var i := RFind(p, Sep);
    var last := p[i + 1..];
    assert forall j :: 0 <= j < |last| ==> last[j] == p[i + 1 + j];
    if last != [] && last != "." then last
    else if i == -1 then []
    else Name(p[..i])
  }

  /**
   * The `suffix` of a file name: from its last dot on, when that dot is
   * neither the first nor the last character; otherwise empty.
   */
  function Suffix(name: string): (r: string)
    ensures r != [] ==>
      && 2 <= |r| < |name| && r == name[|name| - |r|..]
      && r[0] == '.' && forall j :: 1 <= j < |r| ==> r[j] != '.'
    ensures r == [] ==> forall i :: 0 < i < |name| - 1 ==> (name[i] == '.' ==> exists j :: i < j < |name| && name[j] == '.')
  {
    var i := RFind(name, '.');
    if 0 < i < |name| - 1 then name[i..] else []
  }

  /** The last index of `c` in `a + b`, when `a` ends with `c` and `b` has none. */
  lemma RFindAtJoint(a: string, b: string, c: char)
    requires |a| > 0 && a[|a| - 1] == c
    requires forall j :: 0 <= j < |b| ==> b[j] != c
    ensures RFind(a + b, c) == |a| - 1
  {
    var s := a + b;
    var r := RFind(s, c);
    assert s[|a| - 1] == c;
    assert forall j :: |a| <= j < |s| ==> s[j] == b[j - |a|];
  }

  /** `rfind` gives -1 on a string without `c`. */
  lemma RFindAbsent(s: string, c: char)
    requires forall j :: 0 <= j < |s| ==> s[j] != c
    ensures RFind(s, c) == -1
  {
  }

  /**
   * Joining a separator-free file name `n` onto `dir` puts `n` in the
   * basename and `dir` (less its trailing separators) in the dirname.
   */
  lemma JoinLayout(dir: string, n: string)
    requires n != [] && NoSep(n)
    ensures Basename(Join(dir, n)) == n
    ensures Dirname(Join(dir, n)) == DirOf(dir)
  {
    var p := Join(dir, n);
    if dir == [] {
      assert p == n;
      RFindAbsent(n, Sep);
    } else if dir[|dir| - 1] == Sep {
      assert p == dir + n;
      RFindAtJoint(dir, n, Sep);
      assert p[..|dir|] == dir;
      assert p[|dir|..] == n;
    } else {
      var head := dir + [Sep];
      assert p == head + n;
      RFindAtJoint(head, n, Sep);
      assert p[..|head|] == head;
      assert p[|head|..] == n;
      assert !AllSeps(dir) by {
        assert dir[|dir| - 1] !in {Sep};
      }
      assert !AllSeps(head) by {
        assert head[|dir| - 1] == dir[|dir| - 1];
      }
      assert AllIn([Sep], {Sep});
      RStripExact(dir, [Sep], {Sep});
      assert AllIn([], {Sep});
      RStripExact(dir, [], {Sep});
      assert dir + [] == dir;
    }
  }

  /** A directory that is not all separators and has no trailing one comes back unchanged. */
  lemma DirOfPlainDir(dir: string)
    requires dir != [] && (AllSeps(dir) || dir[|dir| - 1] != Sep)
    ensures DirOf(dir) == dir
  {
    if !AllSeps(dir) {
      assert AllIn([], {Sep});
      RStripExact(dir, [], {Sep});
      assert dir + [] == dir;
    }
  }

  /** A separator-free file name other than `.` is its own `name`. */
  lemma {:induction false} NameOfPlainName(n: string)
    requires n != [] && n != "." && NoSep(n)
    ensures Name(n) == n
  {
    RFindAbsent(n, Sep);
    assert n[0..] == n;
  }

  /** The `name` of `d/n` is `n`, whatever the directory part. */
  lemma {:induction false} NameAfterSep(d: string, n: string)
    requires n != [] && n != "." && NoSep(n)
    ensures Name(d + [Sep] + n) == n
  {
    var p := d + [Sep] + n;
    RFindAtJoint(d + [Sep], n, Sep);
    assert p[|d| + 1..] == n;
  }

  /** A trailing separator does not change a path's name. */
  lemma NameOfTrailingSep(p: string)
    ensures Name(p + [Sep]) == Name(p)
  {
    var q := p + [Sep];
    assert RFind(q, Sep) == |p|;
    assert q[..|p|] == p;
  }
}

/** Output locations: `create_output_path` and `create_output_dir`. */
module OutputPaths {
  import opened Wrappers
  import opened PosixPath

  /** Two separator-free names joined by a character other than the separator. */
  lemma SepFreeConcat(a: string, c: char, b: string)
    ensures NoSep(a) && c != Sep && NoSep(b) ==> NoSep(a + [c] + b)
  {
    var n := a + [c] + b;
    if NoSep(a) && c != Sep && NoSep(b) {
      forall j | 0 <= j < |n|
        ensures n[j] != Sep
      {
        if j < |a| {
          assert n[j] == a[j];
        } else if j > |a| {
          assert n[j] == b[j - |a| - 1];
        }
      }
    }
  }

  /**
   * `create_output_path(file, ext, dir)`: the file `file.ext` inside `dir`.
   */
  function CreateOutputPath(file: string, ext: string, dir: string): (r: string)
    ensures NoSep(file) && NoSep(ext) ==>
      Basename(r) == file + "." + ext && Dirname(r) == DirOf(dir)
  {
    var n := file + "." + ext;
    SepFreeConcat(file, '.', ext);
    if NoSep(n) then JoinLayout(dir, n); Join(dir, n) else Join(dir, n)
  }

  /**
   * With the default file and extension the output file is `f001.xlsx`, and
   * inside the working directory (absolute, with no trailing separator unless
   * it is the root) its directory part is that directory.
   */
  lemma DefaultOutputPath(cwd: string)
    requires cwd != [] && cwd[0] == Sep && (cwd == [Sep] || cwd[|cwd| - 1] != Sep)
    ensures Basename(CreateOutputPath("f001", "xlsx", cwd)) == "f001.xlsx"
    ensures Dirname(CreateOutputPath("f001", "xlsx", cwd)) == cwd
  {
    assert NoSep("f001") && NoSep("xlsx");
    assert "f001" + "." + "xlsx" == "f001.xlsx";
    if cwd == [Sep] {
      assert AllSeps(cwd);
    }
    DirOfPlainDir(cwd);
  }

  /**
   * `create_output_dir(pre, parentdir)` with the clock's reading passed in
   * as `timestamp` and the outcome of `os.makedirs` as `made`: the directory
   * `pre_timestamp` directly under `parentdir`, or `None` (Python's `False`)
   * when it could not be made.
   */
  function CreateOutputDir(pre: string, parentdir: string, timestamp: string, made: bool): (r: Option<string>)
    ensures r.Some? <==> made
    ensures r.Some? && NoSep(pre) && NoSep(timestamp) ==>
      Basename(r.value) == pre + "_" + timestamp && Dirname(r.value) == DirOf(parentdir)
  {
    var n := pre + "_" + timestamp;
    SepFreeConcat(pre, '_', timestamp);
    if !made then None
    else if NoSep(n) then JoinLayout(parentdir, n); Some(Join(parentdir, n))
    else Some(Join(parentdir, n))
  }
}
