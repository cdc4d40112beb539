// A file system as a value: file contents by path and the set of existing
// directories, with the three operations the slide selector performs
// (`Path::parent`, `fs::create_dir_all`, `fs::copy`). Paths are plain
// '/'-separated text without "." or ".." segments or trailing separators.
// Permissions, links and concurrent writers are outside the model.

module Files {
  import opened Strings

  datatype FsState = FsState(files: map<string, seq<bv8>>, dirs: set<string>)

  /** The kinds of `io::Error` these operations raise. */
  datatype IoErrorKind = NotFound | NotADirectory | IsADirectory

  /** Index of the last `c` in `s`, if any. */
  function LastIndexOf(s: string, c: char): (r: Option<nat>)
    ensures r.Some? ==> r.value < |s| && s[r.value] == c && c !in s[r.value + 1..]
    ensures r.None? ==> c !in s
  {
    if s == [] then None
    else if s[|s| - 1] == c then Some(|s| - 1)
    else
      var r := LastIndexOf(s[..|s| - 1], c);
      assert r.Some? ==> s[r.value + 1..] == s[..|s| - 1][r.value + 1..] + [s[|s| - 1]];
      r
  }

  /** `Path::parent`: none for "" and "/", "" for a bare name, "/" for a
      top-level absolute path, otherwise everything before the last '/'. */
  function Parent(p: string): (r: Option<string>)
    ensures r.None? <==> p == "" || p == "/"
    ensures p != "" && '/' !in p ==> r == Some("")
    ensures p != "/" && LastIndexOf(p, '/') == Some(0) ==> r == Some("/")
    ensures forall i | LastIndexOf(p, '/') == Some(i) && i > 0 :: r == Some(p[..i])
  {
    if p == "" || p == "/" then None
    else match LastIndexOf(p, '/')
      case None => Some("")
      case Some(i) => if i == 0 then Some("/") else Some(p[..i])
  }

  /** The directories `create_dir_all(d)` makes sure of: every proper prefix
      of `d` ending just before a '/', and `d` itself. */
  function DirChain(d: string): (r: set<string>)
    ensures d != "" ==> d in r
    ensures forall q :: q in r ==> q != "" && |q| <= |d| && d[..|q|] == q
  {
    (set i | 0 < i < |d| && d[i] == '/' :: d[..i]) + (if d == "" then {} else {d})
  }

  /** `fs::create_dir_all(d)`: fails when an existing file stands where one of
      the directories would go; "" is accepted and changes nothing. */
  function CreateDirAll(fs: FsState, d: string): (r: (Option<IoErrorKind>, FsState))
    ensures r.0.None? ==> r.1 == fs.(dirs := fs.dirs + DirChain(d))
    ensures r.0.Some? ==> r.1 == fs && exists q :: q in DirChain(d) && q in fs.files
  {
    if exists q :: q in DirChain(d) && q in fs.files then (Some(NotADirectory), fs)
    else (None, fs.(dirs := fs.dirs + DirChain(d)))
  }

  /** `fs::copy(src, dst)`: the source must be a file, the target must not be
      a directory and its parent must exist; an existing target is replaced. */
  function Copy(fs: FsState, src: string, dst: string): (r: (Option<IoErrorKind>, FsState))
    ensures r.0.None? <==> (src in fs.files && dst !in fs.dirs &&
                            (Parent(dst).None? || Parent(dst).value == "" || Parent(dst).value in fs.dirs))
    ensures r.0.None? ==> r.1 == fs.(files := fs.files[dst := fs.files[src]])
    ensures r.0.Some? ==> r.1 == fs
  {
    if src !in fs.files then (Some(NotFound), fs)
    else if dst in fs.dirs then (Some(IsADirectory), fs)
    else if Parent(dst).Some? && Parent(dst).value != "" && Parent(dst).value !in fs.dirs then (Some(NotFound), fs)
    else (None, fs.(files := fs.files[dst := fs.files[src]]))
  }

  /** `Path::new(dir).join(name)` for a relative `name`: no separator is added
      after an empty directory or one that already ends in '/'. */
  function PathJoin(dir: string, name: string): (r: string)
    ensures StartsWith(r, dir) && EndsWith(r, name)
    ensures |r| <= |dir| + 1 + |name|
  {
    if dir == "" || dir[|dir| - 1] == '/' then dir + name else dir + "/" + name
  }

  /** `p` without its trailing separators. */
  function TrimTrailingSlashes(p: string): (r: string)
    ensures |r| <= |p| && p[..|r|] == r && (r == "" || r[|r| - 1] != '/')
  {
    if p != "" && p[|p| - 1] == '/' then TrimTrailingSlashes(p[..|p| - 1]) else p
  }

  /** `Path::file_name`: the last component, none for an empty path, the root
      or a path ending in "..". */
  function FileName(p: string): (r: Option<string>)
    ensures r.Some? ==> r.value != "" && '/' !in r.value && r.value != ".."
    ensures r.Some? ==> EndsWith(TrimTrailingSlashes(p), r.value)
  {
    var q := TrimTrailingSlashes(p);
    var name := match LastIndexOf(q, '/') case None => q case Some(i) => q[i + 1..];
    if name == "" || name == ".." then None else Some(name)
  }

  /** `Path::extension`: the text after the last '.' of the file name, when
      that '.' is not its first character. */
  function Extension(p: string): (r: Option<string>)
    ensures r.Some? ==> FileName(p).Some? && EndsWith(FileName(p).value, "." + r.value)
    ensures r.Some? ==> '.' !in r.value
  {
    match FileName(p)
    case None => None
    case Some(name) =>
      match LastIndexOf(name, '.')
      case Some(i) =>
        if i > 0 then
          assert name[i..] == "." + name[i + 1..];
          Some(name[i + 1..])
        else None
      case None => None
  }

  /** The last `c` is the one with no `c` after it. */
  lemma {:induction false} LastIndexAt(s: string, c: char, i: nat)
    requires i < |s| && s[i] == c && c !in s[i + 1..]
    ensures LastIndexOf(s, c) == Some(i)
  {
    if i < |s| - 1 {
      assert s[i + 1..][|s| - 2 - i] == s[|s| - 1];
      var q := s[..|s| - 1];
      assert q[i + 1..] == s[i + 1..][..|s| - 2 - i];
      LastIndexAt(q, c, i);
    }
  }

  /** The file name of `dir` joined with a plain name is that name. */
  lemma FileNameOfJoin(dir: string, name: string)
    requires name != "" && name != ".." && '/' !in name
    ensures FileName(PathJoin(dir, name)) == Some(name)
  {
    if dir == "" {
      assert PathJoin(dir, name) == name;
      assert name[|name| - 1] != '/';
      assert TrimTrailingSlashes(name) == name;
    } else if dir[|dir| - 1] == '/' {
      FileNameAfterSlash(dir, name);
    } else {
      assert dir + "/" + name == (dir + "/") + name;
      FileNameAfterSlash(dir + "/", name);
    }
  }

  /** A plain name after a directory ending in '/' is that path's file name. */
  lemma FileNameAfterSlash(d: string, name: string)
    requires d != "" && d[|d| - 1] == '/'
    requires name != "" && name != ".." && '/' !in name
    ensures FileName(d + name) == Some(name)
  {
    var p := d + name;
    assert p[|p| - 1] == name[|name| - 1];
    assert TrimTrailingSlashes(p) == p;
    assert p[|d| - 1] == '/' && p[|d|..] == name;
    LastIndexAt(p, '/', |d| - 1);
  }

  /** The parent of a directory joined with a plain name is that directory,
      when the directory has no trailing separator (the root aside). */
  lemma ParentOfJoin(dir: string, name: string)
    requires name != "" && '/' !in name
    requires dir == "" || dir == "/" || dir[|dir| - 1] != '/'
    ensures Parent(PathJoin(dir, name)) == Some(dir)
  {
    var p := PathJoin(dir, name);
    if dir == "" {
      assert p == name;
    } else if dir == "/" {
      assert p[0] == '/' && p[1..] == name;
      LastIndexAt(p, '/', 0);
    } else {
      assert p[|dir|] == '/' && p[|dir| + 1..] == name && p[..|dir|] == dir;
      LastIndexAt(p, '/', |dir|);
    }
  }
}
