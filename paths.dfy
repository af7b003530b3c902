/**
 * Deterministic storage paths of the catalog engine (buildDir, buildPath and
 * buildDirAndPath, without their directory-creating side effect, which the
 * store model adds). Path::join is modelled as plain concatenation with '/'.
 */
module Paths {
  import opened Base

  function Join(a: string, b: string): string {
    a + "/" + b
  }

  /** The array buildDir returns. */
  datatype Dir = Dir(relDir: string, absDir: string)

  /** The array buildPath returns. */
  datatype FilePath = FilePath(relPath: string, absPath: string, fileName: string)

  predicate NoSlash(s: string) {
    forall i :: 0 <= i < |s| ==> s[i] != '/'
  }

  /** JSON documents live under upload/{version}/{lang}/{type}, images under upload/{version}/{type}_img. */
  function RelDir(version: string, lang: string, kind: string, img: bool): string {
    if img then "upload/" + version + "/" + kind + "_img"
    else "upload/" + version + "/" + lang + "/" + kind
  }

  function BuildDir(baseDir: string, version: string, lang: string, kind: string, img: bool): (d: Dir)
    ensures d.absDir == Join(baseDir, d.relDir)
  {
    var rel := RelDir(version, lang, kind, img);
    Dir(rel, Join(baseDir, rel))
  }

  function BuildPath(dir: Dir, name: string): (p: FilePath)
    ensures p.fileName == name
  {
    FilePath(Join(dir.relDir, name), Join(dir.absDir, name), name)
  }

  /** buildDirAndPath: a missing or falsy name becomes "{type}.json". */
  function DefaultName(kind: string, name: Option<string>): (n: string)
    ensures name.Some? && TruthyStr(name.value) ==> n == name.value
    ensures !(name.Some? && TruthyStr(name.value)) ==> n == kind + ".json"
  {
    if name.Some? && TruthyStr(name.value) then name.value else kind + ".json"
  }

  /** Index of the first '/' in s, or |s| when there is none. */
  function FirstSlash(s: string): (i: nat)
    ensures i <= |s|
  {
    if s == [] || s[0] == '/' then 0 else 1 + FirstSlash(s[1..])
  }

  lemma {:induction false} FirstSlashAfterHead(a: string, b: string)
    requires NoSlash(a)
    ensures FirstSlash(a + "/" + b) == |a|
    decreases |a|
  {
    if a != [] {
      assert (a + "/" + b)[1..] == a[1..] + "/" + b;
      FirstSlashAfterHead(a[1..], b);
    }
  }

  lemma {:induction false} FirstSlashNone(s: string)
    requires NoSlash(s)
    ensures FirstSlash(s) == |s|
    decreases |s|
  {
    if s != [] {
      FirstSlashNone(s[1..]);
    }
  }

  /** A '/' separates two slash-free heads unambiguously. */
  lemma SplitAtSlash(a: string, b: string, c: string, d: string)
    requires NoSlash(a) && NoSlash(c)
    requires a + "/" + b == c + "/" + d
    ensures a == c && b == d
  {
    var l := a + "/" + b;
    FirstSlashAfterHead(a, b);
    FirstSlashAfterHead(c, d);
    assert a == l[..|a|] == c;
    assert b == l[|a| + 1..] == d;
  }

  lemma ImageDirIgnoresLang(baseDir: string, version: string, lang1: string, lang2: string, kind: string)
    ensures BuildDir(baseDir, version, lang1, kind, true) == BuildDir(baseDir, version, lang2, kind, true)
    ensures BuildDir(baseDir, version, lang1, kind, true).relDir == "upload/" + version + "/" + kind + "_img"
  {
  }

  /** With slash-free components, the JSON directory determines version, language and type. */
  lemma JsonDirInjective(v1: string, l1: string, t1: string, v2: string, l2: string, t2: string)
    requires NoSlash(v1) && NoSlash(l1) && NoSlash(t1) && NoSlash(v2) && NoSlash(l2) && NoSlash(t2)
    requires RelDir(v1, l1, t1, false) == RelDir(v2, l2, t2, false)
    ensures v1 == v2 && l1 == l2 && t1 == t2
  {
    assert RelDir(v1, l1, t1, false) == "upload" + "/" + (v1 + "/" + (l1 + "/" + t1));
    assert RelDir(v2, l2, t2, false) == "upload" + "/" + (v2 + "/" + (l2 + "/" + t2));
    SplitAtSlash("upload", v1 + "/" + (l1 + "/" + t1), "upload", v2 + "/" + (l2 + "/" + t2));
    SplitAtSlash(v1, l1 + "/" + t1, v2, l2 + "/" + t2);
    SplitAtSlash(l1, t1, l2, t2);
  }

  /** With slash-free components, no image directory is a JSON directory. */
  lemma ImageAndJsonDirsDisjoint(v1: string, t1: string, v2: string, l2: string, t2: string)
    requires NoSlash(v1) && NoSlash(t1) && NoSlash(v2) && NoSlash(l2) && NoSlash(t2)
    ensures RelDir(v1, "", t1, true) != RelDir(v2, l2, t2, false)
  {
    if RelDir(v1, "", t1, true) == RelDir(v2, l2, t2, false) {
      assert RelDir(v1, "", t1, true) == "upload" + "/" + (v1 + "/" + (t1 + "_img"));
      assert RelDir(v2, l2, t2, false) == "upload" + "/" + (v2 + "/" + (l2 + "/" + t2));
      SplitAtSlash("upload", v1 + "/" + (t1 + "_img"), "upload", v2 + "/" + (l2 + "/" + t2));
      SplitAtSlash(v1, t1 + "_img", v2, l2 + "/" + t2);
      FirstSlashNone(t1 + "_img");
      FirstSlashAfterHead(l2, t2);
      assert false;
    }
  }

  /** The absolute file path is the base directory joined with the relative file path. */
  lemma AbsPathIsBaseJoinRel(baseDir: string, version: string, lang: string, kind: string, img: bool, name: string)
    ensures BuildPath(BuildDir(baseDir, version, lang, kind, img), name).absPath
         == Join(baseDir, BuildPath(BuildDir(baseDir, version, lang, kind, img), name).relPath)
  {
  }
}
