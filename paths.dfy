/**
 * The POSIX flavour of Node's `path.dirname`, `path.basename`,
 * `path.extname` and `path.join`, as the capture and stitching code use them.
 */
module Paths {
  import opened Wrappers
  import opened Text

  /** `p` without its trailing `/` characters. */
  function StripTrailingSlashes(p: string): (r: string)
    ensures |r| <= |p| && r == p[..|r|]
    ensures r == [] || r[|r| - 1] != '/'
    ensures forall i :: |r| <= i < |p| ==> p[i] == '/'
  {
    if p == [] || p[|p| - 1] != '/' then p else StripTrailingSlashes(p[..|p| - 1])
  }

  /** `path.basename(p)`: the last segment, trailing slashes ignored. */
  function Basename(p: string): (r: string)
    ensures '/' !in r
  {
    var q := StripTrailingSlashes(p);
    match LastIndexOfChar(q, '/')
    case None => q
    case Some(i) => q[i + 1..]
  }

  /**
   * `path.dirname(p)`: everything before the last segment. Trailing slashes
   * are ignored, except a leading one, which makes the root `/`.
   */
  function Dirname(p: string): string
  {
    if p == [] then "."
    else
      var hasRoot := p[0] == '/';
      var q := StripTrailingSlashes(p[1..]);
      match LastIndexOfChar(q, '/')
      case None => if hasRoot then "/" else "."
      case Some(j) => if hasRoot && j == 0 then "//" else p[..j + 1]
  }

  /**
   * `path.extname(p)`: the last segment from its last `.`, or nothing when
   * that segment has no `.`, starts with its only `.`, or is `..`.
   */
  function Extname(p: string): (r: string)
    ensures var seg := Basename(p); |r| <= |seg| && r == seg[|seg| - |r|..]
    ensures r == [] || r[0] == '.'
  {
    var seg := Basename(p);
    match LastIndexOfChar(seg, '.')
    case None => ""
    case Some(d) => if d == 0 || seg == ".." then "" else seg[d..]
  }

  /** `path.basename(p, path.extname(p))`: the last segment without its extension. */
  function Stem(p: string): string
  {
    var seg := Basename(p);
    seg[..|seg| - |Extname(p)|]
  }

  /**
   * `path.join(dir, name)` for a single file name: one `/` between the two.
   * The normalisation of `.` and `..` segments is not part of this model.
   */
  function Join(dir: string, name: string): string
  {
    if dir == [] then name
    else if dir[|dir| - 1] == '/' then dir + name
    else dir + "/" + name
  }

  /** The name joined onto a folder is the basename of the result. */
  lemma BasenameOfJoin(dir: string, name: string)
    requires name != [] && '/' !in name
    ensures Basename(Join(dir, name)) == name
  {
    var p := Join(dir, name);
    assert p[|p| - 1] == name[|name| - 1];
    assert StripTrailingSlashes(p) == p;
    if dir != [] {
      var k := |p| - |name| - 1;
      assert p[k] == '/' && p[k + 1..] == name;
      LastIndexOfCharAt(p, '/', k);
    }
  }

  /** The folder a name was joined onto is the dirname of the result. */
  lemma DirnameOfJoin(dir: string, name: string)
    requires dir != [] && dir[|dir| - 1] != '/'
    requires name != [] && '/' !in name
    ensures Dirname(Join(dir, name)) == dir
  {
    var p := Join(dir, name);
    assert p == dir + "/" + name;
    var tail := p[1..];
    assert tail[|tail| - 1] == name[|name| - 1];
    assert StripTrailingSlashes(tail) == tail;
    var k := |dir| - 1;
    assert tail[k] == '/' && tail[k + 1..] == name;
    LastIndexOfCharAt(tail, '/', k);
    assert p[..k + 1] == dir;
  }

  /** A file name with one extension splits back into its stem and that extension. */
  lemma StemOfFileName(dir: string, stem: string, ext: string)
    requires stem != [] && '/' !in stem
    requires |ext| >= 2 && ext[0] == '.' && '.' !in ext[1..] && '/' !in ext
    ensures Extname(Join(dir, stem + ext)) == ext
    ensures Stem(Join(dir, stem + ext)) == stem
  {
    var name := stem + ext;
    assert '/' !in name by {
      forall i | 0 <= i < |name| ensures name[i] != '/' {
        if i < |stem| { assert name[i] == stem[i]; } else { assert name[i] == ext[i - |stem|]; }
      }
    }
    BasenameOfJoin(dir, name);
    assert name[|stem|] == '.' && name[|stem| + 1..] == ext[1..];
    LastIndexOfCharAt(name, '.', |stem|);
    assert name[|stem|..] == ext;
    assert |name| >= 3;
  }
}
