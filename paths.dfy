/** The os.path operations the core uses on names in the working directory:
    basename, join of a directory and a plain name, isabs and abspath. */
module Paths {
  import opened PyText

  /** A path separator: '/' everywhere, '\' as well on Windows. */
  predicate IsSep(c: char, win: bool) {
    c == '/' || (win && c == '\\')
  }

  /** The separator os.path.join inserts. */
  function Sep(win: bool): char {
    if win then '\\' else '/'
  }

  predicate NoSep(name: string, win: bool) {
    forall i :: 0 <= i < |name| ==> !IsSep(name[i], win)
  }

  /** os.path.basename: the text after the last separator. */
  function Basename(p: string, win: bool): (r: string)
    ensures |r| <= |p| && r == p[|p| - |r|..]
    ensures NoSep(r, win)
    ensures |r| < |p| ==> IsSep(p[|p| - |r| - 1], win)
  {
    if p == [] || IsSep(p[|p| - 1], win) then [] else Basename(p[..|p| - 1], win) + [p[|p| - 1]]
  }

  /** os.path.join(dir, name) for a name that holds no separator. */
  function JoinName(dir: string, name: string, win: bool): string {
    if dir == [] || IsSep(dir[|dir| - 1], win) then dir + name else dir + [Sep(win)] + name
  }

  lemma BasenameSnoc(p: string, c: char, win: bool)
    requires !IsSep(c, win)
    ensures Basename(p + [c], win) == Basename(p, win) + [c]
  {
    assert (p + [c])[..|p|] == p;
  }

  lemma {:induction false} BasenameAfterSep(dir: string, name: string, win: bool)
    requires dir == [] || IsSep(dir[|dir| - 1], win)
    requires NoSep(name, win)
    ensures Basename(dir + name, win) == name
  {
    if name == [] {
      assert dir + name == dir;
    } else {
      var init, last := name[..|name| - 1], name[|name| - 1];
      assert name == init + [last];
      assert dir + name == (dir + init) + [last];
      BasenameAfterSep(dir, init, win);
      BasenameSnoc(dir + init, last, win);
    }
  }

  /** The last component of a joined path is the name that was joined. */
  lemma BasenameOfJoin(dir: string, name: string, win: bool)
    requires NoSep(name, win)
    ensures Basename(JoinName(dir, name, win), win) == name
  {
    if dir == [] || IsSep(dir[|dir| - 1], win) {
      BasenameAfterSep(dir, name, win);
    } else {
      assert dir + [Sep(win)] + name == (dir + [Sep(win)]) + name;
      BasenameAfterSep(dir + [Sep(win)], name, win);
    }
  }

  /** os.path.isabs: a leading separator, or a drive such as "C:\" on Windows. */
  predicate IsAbs(p: string, win: bool) {
    (p != [] && IsSep(p[0], win)) || (win && |p| >= 3 && p[1] == ':' && IsSep(p[2], win))
  }

  /** os.path.abspath for a name in the working directory: an absolute path is
      kept, a relative one is joined to cwd after dropping a leading "./". */
  function AbsPath(cwd: string, p: string, win: bool): string {
    if IsAbs(p, win) then p
    else
      var rel := if |p| >= 2 && p[0] == '.' && IsSep(p[1], win) then p[2..] else p;
      JoinName(cwd, rel, win)
  }

  lemma AbsPathIsAbs(cwd: string, p: string, win: bool)
    requires IsAbs(cwd, win)
    ensures IsAbs(AbsPath(cwd, p, win), win)
  {
  }
}
