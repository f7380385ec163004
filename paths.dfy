// The two os.path functions the programs use on POSIX paths.

module Paths {

  import opened Strings

  /** `os.path.join(dir, name)`: an absolute `name` replaces `dir`;
    * otherwise a separator is added unless `dir` is empty or already ends
    * with one. */
  function Join(dir: string, name: string): (p: string)
    ensures EndsWith(p, name)
  {
    if |name| > 0 && name[0] == '/' then name
    else if |dir| == 0 || dir[|dir| - 1] == '/' then dir + name
    else dir + "/" + name
  }

  /** `os.path.basename(p)`: everything after the last `/`. */
  function Basename(p: string): (r: string)
    ensures '/' !in r
    ensures EndsWith(p, r)
    ensures |r| < |p| ==> p[|p| - |r| - 1] == '/'
  {
    if |p| == 0 || p[|p| - 1] == '/' then ""
    else Basename(p[..|p| - 1]) + [p[|p| - 1]]
  }

  lemma {:induction false} BasenameAfterSeparator(dir: string, name: string)
    requires '/' !in name
    requires |dir| == 0 || dir[|dir| - 1] == '/'
    ensures Basename(dir + name) == name
    decreases |name|
  {
    if |name| > 0 {
      var init, c := name[..|name| - 1], name[|name| - 1];
      assert name == init + [c];
      assert c in name;
      var p := (dir + init) + [c];
      assert dir + name == p;
      assert p[..|p| - 1] == dir + init;
      BasenameAfterSeparator(dir, init);
    } else {
      assert dir + name == dir;
    }
  }

  /** The base name of a joined path is the name that was joined, as long
    * as the name is a plain file name. */
  lemma BasenameOfJoin(dir: string, name: string)
    requires '/' !in name
    ensures Basename(Join(dir, name)) == name
  {
    if |name| > 0 {
      assert name[0] in name;
    }
    if |dir| == 0 || dir[|dir| - 1] == '/' {
      BasenameAfterSeparator(dir, name);
    } else {
      assert dir + "/" + name == (dir + "/") + name;
      BasenameAfterSeparator(dir + "/", name);
    }
  }
}
