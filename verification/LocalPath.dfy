/** File paths in profiles: a path below the data directory is stored behind a code word
    (src/LocalPath.cpp), on a system whose directory separator is '/'. */
module LocalPath {
  import opened Common

  const CODE: string := "%LOCAL_PATH%\\"

  predicate IsSlash(c: char) {
    c == '/' || c == '\\'
  }

  function SkipSlashes(s: string): (r: string)
    ensures r == "" || !IsSlash(r[0])
    ensures s == "" || !IsSlash(s[0]) ==> r == s
    ensures |r| <= |s| && (|r| == |s| ==> r == s)
  {
    if s != "" && IsSlash(s[0]) then SkipSlashes(s[1..]) else s
  }

  /** AfterLocalPathCode */
  function AfterCode(p: string): Option<string> {
    if !(CODE <= p) then None
    else
      var rest := SkipSlashes(p[|CODE|..]);
      if rest == "" then None else Some(rest)
  }

  function Slashes(s: string): (r: string)
    ensures |r| == |s| && forall i :: 0 <= i < |s| ==> r[i] == if s[i] == '\\' then '/' else s[i]
  {
    seq(|s|, i requires 0 <= i < |s| => if s[i] == '\\' then '/' else s[i])
  }

  /** AllocatedPath::Build */
  function Build(a: string, b: string): string {
    a + "/" + b
  }

  /** ExpandLocalPath */
  function Expand(root: string, src: string): string {
    var rest := AfterCode(src);
    if rest.None? then src else Build(root, Slashes(rest.value))
  }

  /** RelativePath */
  function Relative(root: string, path: string): Option<string> {
    if root <= path && |path| > |root| && path[|root|] == '/' then Some(path[|root| + 1..]) else None
  }

  /** ContractLocalPath */
  function Contract(root: string, src: string): Option<string> {
    var relative := Relative(root, src);
    if relative.None? then None else Some(CODE + relative.value)
  }

  /** What a profile stores for a path: the contracted form if there is one. */
  function Stored(root: string, path: string): string {
    var c := Contract(root, path);
    if c.Some? then c.value else path
  }

  lemma RelativeToBuild(root: string, relative: string)
    ensures Relative(root, Build(root, relative)) == Some(relative)
    ensures Stored(root, Build(root, relative)) == CODE + relative
  {
    var p := Build(root, relative);
    assert p[..|root|] == root && p[|root| + 1..] == relative;
  }

  /** What a contracted path expands to. */
  lemma ExpandStored(root: string, relative: string)
    requires relative != "" && !IsSlash(relative[0])
    ensures Expand(root, Stored(root, Build(root, relative))) == Build(root, Slashes(relative))
  {
    RelativeToBuild(root, relative);
    assert (CODE + relative)[|CODE|..] == relative;
  }

  /** The part of a path below the data directory contains a backslash. */
  predicate HasBackslash(root: string, path: string) {
    var relative := Relative(root, path);
    relative.Some? && '\\' in relative.value
  }

  /** Contracting a path below the data directory and expanding it again gives the path back,
      exactly when its relative part is not empty, does not start with a slash and contains no
      backslash (which POSIX allows in file names). */
  lemma ExpandInvertsContract(root: string, relative: string)
    ensures var p := Build(root, relative);
            Expand(root, Stored(root, p)) == p
            <==> relative != "" && relative[0] != '/' && '\\' !in relative
  {
    RelativeToBuild(root, relative);
    var p, c := Build(root, relative), CODE + relative;
    assert c[|CODE|..] == relative;
    var rest := SkipSlashes(relative);
    if rest == "" {
      assert p[..|p| - |relative|] == root + "/" && c[..|c| - |relative|] == CODE;
      assert p[|p| - |relative| - 1] == '/' && c[|c| - |relative| - 1] == '\\';
    } else {
      var e := Build(root, Slashes(rest));
      assert e[|root| + 1..] == Slashes(rest) && p[|root| + 1..] == relative;
      assert e == p <==> Slashes(rest) == relative;
    }
  }

  lemma {:induction false} SkipsAllSlashes(slashes: string, rest: string)
    requires forall c :: c in slashes ==> c == '/' || c == '\\'
    requires rest == "" || (rest[0] != '/' && rest[0] != '\\')
    ensures SkipSlashes(slashes + rest) == rest
  {
    if slashes == "" {
      assert slashes + rest == rest;
    } else {
      assert (slashes + rest)[1..] == slashes[1..] + rest && slashes[0] in slashes;
      assert forall c :: c in slashes[1..] ==> c in slashes;
      SkipsAllSlashes(slashes[1..], rest);
    }
  }

  /** Expanding replaces the code word and the slashes after it by the data directory, and turns
      the backslashes that follow into slashes. */
  lemma ExpandMeaning(root: string, slashes: string, rest: string)
    requires forall c :: c in slashes ==> c == '/' || c == '\\'
    requires rest == "" || (rest[0] != '/' && rest[0] != '\\')
    ensures var src := "%LOCAL_PATH%\\" + slashes + rest;
            Expand(root, src) == if rest == "" then src else root + "/" + Slashes(rest)
  {
    var src := "%LOCAL_PATH%\\" + slashes + rest;
    SkipsAllSlashes(slashes, rest);
    assert src[|CODE|..] == slashes + rest && CODE <= src;
  }

  /** Paths without the code word stay as they are. */
  lemma OtherPathsStay(root: string, src: string)
    ensures (exists rest :: src == "%LOCAL_PATH%\\" + rest) || Expand(root, src) == src
  {
    if CODE <= src {
      assert src == CODE + src[|CODE|..];
    }
  }

  /** Contracting is for paths below the data directory only. */
  lemma ContractMeaning(root: string, path: string)
    ensures forall relative :: path == root + "/" + relative ==>
              Contract(root, path) == Some("%LOCAL_PATH%\\" + relative) == Some(Stored(root, path))
    ensures (forall relative :: path != root + "/" + relative) ==>
              Contract(root, path) == None && Stored(root, path) == path
  {
    forall relative | path == root + "/" + relative
      ensures Relative(root, path) == Some(relative)
    {
      RelativeToBuild(root, relative);
    }
    if Relative(root, path).Some? {
      assert path == root + "/" + path[|root| + 1..];
    }
  }
}
