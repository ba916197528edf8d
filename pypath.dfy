/**
 * The part of `pathlib.PurePath` the sharing scripts use to name their
 * output: the final component of a path, its stem and suffix, and the
 * `<stem>_ext.py` name of the shared copy.
 */
module PyPath {

  /** `s.rfind(c)`: the index of the last `c` in `s`, or -1. */
  function RFind(s: string, c: char): (k: int)
    ensures -1 <= k < |s|
    ensures k >= 0 ==> s[k] == c
    ensures forall j :: k < j < |s| ==> s[j] != c
  {
    if s == [] then -1
    else if s[|s| - 1] == c then |s| - 1
    else RFind(s[..|s| - 1], c)
  }

  /** `PurePath(path).name`: the text after the last '/'. */
  function FileName(path: string): (r: string)
    ensures '/' !in r
    ensures |r| <= |path| && path[|path| - |r|..] == r
    ensures |r| < |path| ==> path[|path| - |r| - 1] == '/'
  {
    path[RFind(path, '/') + 1..]
  }

  /**
   * Where `PurePath.suffix` starts: at the last '.', unless that dot is the
   * first or the last character of the name, in which case there is no suffix.
   */
  function SuffixStart(name: string): (k: nat)
    ensures k <= |name|
    ensures k < |name| ==> 0 < k < |name| - 1 && name[k] == '.' && '.' !in name[k + 1..]
  {
    var i := RFind(name, '.');
    if 0 < i < |name| - 1 then i else |name|
  }

  /** `PurePath.stem`: the name without its suffix. */
  function Stem(name: string): string {
    name[..SuffixStart(name)]
  }

  /** `PurePath.suffix`: "" or a dot followed by at least one character and no other dot. */
  function Suffix(name: string): string {
    name[SuffixStart(name)..]
  }

  /** A name is its stem followed by its suffix, and a suffix never leaves the stem empty. */
  lemma StemAndSuffix(name: string)
    ensures Stem(name) + Suffix(name) == name
    ensures Suffix(name) == [] || (|Suffix(name)| >= 2 && Suffix(name)[0] == '.' && Stem(name) != [])
  {
    assert name == name[..SuffixStart(name)] + name[SuffixStart(name)..];
  }

  /** The file name of the shared copy of the file at `srcPath`: `<stem>_ext.py`. */
  function OutputName(srcPath: string): (r: string)
    ensures '/' !in r
  {
    Stem(FileName(srcPath)) + "_ext.py"
  }

  /**
   * For a Python file `<stem>.py`, in the working directory or in `dir`,
   * the shared copy is `<stem>_ext.py`, whatever dots the stem itself holds.
   */
  lemma OutputNameOfPyFile(dir: string, stem: string)
    requires stem != [] && '/' !in stem
    ensures OutputName(stem + ".py") == stem + "_ext.py"
    ensures OutputName(dir + "/" + stem + ".py") == stem + "_ext.py"
  {
    FileNameOfPyFile(dir, stem);
    StemOfPyName(stem);
  }

  /** The final component of `<stem>.py` and of `dir/<stem>.py` is `<stem>.py`. */
  lemma FileNameOfPyFile(dir: string, stem: string)
    requires '/' !in stem
    ensures FileName(stem + ".py") == stem + ".py"
    ensures FileName(dir + "/" + stem + ".py") == stem + ".py"
  {
    var path := dir + "/" + stem + ".py";
    var name := stem + ".py";
    assert RFind(name, '/') == -1 by {
      forall j | 0 <= j < |name| ensures name[j] != '/' {
        if j < |stem| {
          assert name[j] == stem[j];
        }
      }
    }
    assert RFind(path, '/') == |dir| by {
      assert path[|dir|] == '/';
      forall j | |dir| < j < |path| ensures path[j] != '/' {
        assert path[j] == name[j - |dir| - 1];
      }
    }
  }

  /** The stem of `<stem>.py` is `<stem>` when that is not empty. */
  lemma StemOfPyName(stem: string)
    requires stem != []
    ensures Stem(stem + ".py") == stem
  {
    var name := stem + ".py";
    assert RFind(name, '.') == |stem| by {
      assert name[|stem|] == '.';
    }
  }

}
