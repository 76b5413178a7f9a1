/** The cache base path and the per-session cache path. */
module CachePaths {

  const DirectorySeparator: char := '\\'
  const SessionPrefix: string := "Cef_Cache_"

  /** Path.Combine treats a path ending in a directory separator, the
      alternative separator or the volume separator as already terminated. */
  predicate EndsWithSeparator(p: string) {
    |p| > 0 && p[|p| - 1] in {'\\', '/', ':'}
  }

  /** Path.Combine(a, b) for a relative `b`, which every call in the cache
      code passes: an empty part yields the other one unchanged. */
  function Combine(a: string, b: string): (r: string)
    ensures |r| == |a| + |b| || |r| == |a| + 1 + |b|
    ensures r[|r| - |b|..] == b
    ensures r[..|a|] == a
    ensures a == "" ==> r == b
    ensures b == "" ==> r == a
    ensures a != "" && b != "" && EndsWithSeparator(a) ==> |r| == |a| + |b|
    ensures a != "" && b != "" && !EndsWithSeparator(a) ==> |r| == |a| + 1 + |b| && r[|a|] == DirectorySeparator
  {
    if a == "" then b
    else if b == "" then a
    else if EndsWithSeparator(a) then a + b
    else a + [DirectorySeparator] + b
  }

  /** Appending a separator and a tail to a path that ends in `n` keeps the
      path, and `n`, in place in front of the separator. */
  lemma JoinAfter(m: string, n: string, tail: string)
    requires |n| <= |m| && m[|m| - |n|..] == n
    ensures var r := m + [DirectorySeparator] + tail;
      && r[..|m|] == m
      && r[|m| - |n|..|m|] == n
      && r[|m|] == DirectorySeparator
      && r[|m| + 1..] == tail
  {
    var r := m + [DirectorySeparator] + tail;
    assert r[..|m|] == m;
    assert r[|m| - |n|..|m|] == m[|m| - |n|..];
  }

  const CacheDirName: string := "Cefsharp"
  const CacheRootName: string := "ChromiumCacheRoot"

  /** The separator Path.Combine puts after `a` before a non-empty part. */
  function SeparatorAfter(a: string): nat {
    if a != "" && !EndsWithSeparator(a) then 1 else 0
  }

  /** Joining a path with a name that does not end in a separator, and the
      result with a further name, lays out the path, a separator unless the
      path already ends in one, the first name, a separator and the second
      name. */
  lemma {:induction false} JoinTwice(t: string, dir: string, root: string)
    requires dir != "" && root != "" && !EndsWithSeparator(dir)
    ensures var r := Combine(Combine(t, dir), root);
      && |r| == |t| + SeparatorAfter(t) + |dir| + 1 + |root|
      && r[..|t|] == t
      && (SeparatorAfter(t) == 1 ==> r[|t|] == DirectorySeparator)
      && r[|r| - |root| - 1 - |dir|..|r| - |root| - 1] == dir
      && r[|r| - |root| - 1] == DirectorySeparator
      && r[|r| - |root|..] == root
  {
    var m := Combine(t, dir);
    assert |m| == |t| + SeparatorAfter(t) + |dir|;
    assert m[|m| - 1] == m[|m| - |dir|..][|dir| - 1] == dir[|dir| - 1];
    JoinAfter(m, dir, root);
    var r := Combine(m, root);
    assert r == m + [DirectorySeparator] + root;
    PrefixOfPrefix(r, m, t);
    if SeparatorAfter(t) == 1 {
      assert r[|t|] == r[..|m|][|t|] == m[|t|];
    }
  }

  /** A prefix of a prefix of `r` is a prefix of `r`. */
  lemma PrefixOfPrefix(r: string, m: string, t: string)
    requires |t| <= |m| <= |r| && r[..|m|] == m && m[..|t|] == t
    ensures r[..|t|] == t
  {
    assert r[..|t|] == r[..|m|][..|t|];
  }

  /** Path.Combine(temp, "Cefsharp", "ChromiumCacheRoot"): the temp path,
      a separator unless it already ends in one, "Cefsharp", a separator and
      "ChromiumCacheRoot", and nothing else. */
  function CacheBasePath(tempPath: string): (r: string)
    ensures |r| == |tempPath| + SeparatorAfter(tempPath) + |CacheDirName| + 1 + |CacheRootName|
    ensures r[..|tempPath|] == tempPath
    ensures SeparatorAfter(tempPath) == 1 ==> r[|tempPath|] == DirectorySeparator
    ensures r[|r| - |CacheRootName| - 1 - |CacheDirName|..|r| - |CacheRootName| - 1] == CacheDirName
    ensures r[|r| - |CacheRootName| - 1] == DirectorySeparator
    ensures r[|r| - |CacheRootName|..] == CacheRootName
  {
    JoinTwice(tempPath, CacheDirName, CacheRootName);
    Combine(Combine(tempPath, CacheDirName), CacheRootName)
  }

  /** The name of this session's folder under the base: "Cef_Cache_" and the token. */
  function SessionFolderName(token: string): (name: string)
    ensures |name| == |SessionPrefix| + |token|
    ensures name[..|SessionPrefix|] == SessionPrefix
    ensures name[|SessionPrefix|..] == token
  {
    SessionPrefix + token
  }

  /** The session cache path: the base joined with the session folder name,
      with a separator between them unless the base already ends in one. */
  function SessionPath(basePath: string, token: string): (p: string)
    ensures |p| == |basePath| + |SessionPrefix| + |token| || |p| == |basePath| + 1 + |SessionPrefix| + |token|
    ensures |p| == |basePath| + SeparatorAfter(basePath) + |SessionPrefix| + |token|
    ensures p[..|basePath|] == basePath
    ensures p[|p| - |SessionPrefix| - |token|..] == SessionPrefix + token
    ensures basePath != "" && !EndsWithSeparator(basePath) ==> p[|basePath|] == DirectorySeparator
  {
    Combine(basePath, SessionFolderName(token))
  }

  /** Joining one base with two different names gives two different paths. */
  lemma {:induction false} CombineInjective(a: string, b1: string, b2: string)
    requires Combine(a, b1) == Combine(a, b2)
    ensures b1 == b2
  {
    if a == "" {
    } else if b1 == "" || b2 == "" {
      // Joining with an empty name gives `a` itself; any other name makes it longer.
      assert |Combine(a, b1)| == |a| + |b1| || |Combine(a, b1)| == |a| + 1 + |b1|;
      assert |Combine(a, b2)| == |a| + |b2| || |Combine(a, b2)| == |a| + 1 + |b2|;
    } else {
      var head := if EndsWithSeparator(a) then a else a + [DirectorySeparator];
      assert Combine(a, b1) == head + b1 && Combine(a, b2) == head + b2;
      assert b1 == (head + b1)[|head|..];
      assert b2 == (head + b2)[|head|..];
    }
  }

  /** The session path lies under the base, ends in "Cef_Cache_" and the
      token, and two different tokens give two different session paths. */
  lemma SessionPathShape(basePath: string, token: string, other: string)
    ensures var p := SessionPath(basePath, token);
      && p[..|basePath|] == basePath
      && p[|p| - |SessionPrefix + token|..] == SessionPrefix + token
    ensures other != token ==> SessionPath(basePath, other) != SessionPath(basePath, token)
  {
    if SessionPath(basePath, other) == SessionPath(basePath, token) {
      CombineInjective(basePath, SessionFolderName(other), SessionFolderName(token));
      assert other == SessionFolderName(other)[|SessionPrefix|..];
    }
  }
}
