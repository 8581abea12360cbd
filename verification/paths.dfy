/** The POSIX flavour of Node's `path.basename`, `path.extname` and
    `path.dirname`, which decide entry names and the root of a single-file
    source. */
module Paths {

  /** The last position of `c` in `s`, or -1. */
  function LastIndexOf(s: string, c: char): (r: int)
    ensures -1 <= r < |s|
    ensures r == -1 <==> c !in s
    ensures 0 <= r ==> s[r] == c && c !in s[r + 1..]
  {
    if |s| == 0 then -1
    else if s[|s| - 1] == c then |s| - 1
    else
      var k := LastIndexOf(s[..|s| - 1], c);
      assert s == s[..|s| - 1] + [s[|s| - 1]];
      k
  }

  /** `p` without the run of `/` at its end. */
  function StripTrailingSlashes(p: string): (r: string)
    ensures |r| <= |p| && r == p[..|r|]
    ensures forall k :: |r| <= k < |p| ==> p[k] == '/'
    ensures r == [] || r[|r| - 1] != '/'
  {
    if |p| > 0 && p[|p| - 1] == '/' then StripTrailingSlashes(p[..|p| - 1]) else p
  }

  /** `path.basename(p)`: the last segment, trailing separators ignored. */
  function Basename(p: string): (r: string)
    ensures '/' !in r
    ensures var q := StripTrailingSlashes(p); |r| <= |q| && r == q[|q| - |r|..]
  {
    var q := StripTrailingSlashes(p);
    q[LastIndexOf(q, '/') + 1..]
  }

  /** The extension of one path segment as `path.extname` finds it: from the
      last dot on, unless that dot opens the segment or the segment is `..`. */
  function SegmentExtension(segment: string): (r: string)
    ensures |r| < |segment| || r == []
    ensures r == segment[|segment| - |r|..]
    ensures r != [] ==> r[0] == '.' && '.' !in r[1..]
  {
    var d := LastIndexOf(segment, '.');
    if d <= 0 || segment == ".." then []
    else
      var r := segment[d..];
      assert r[1..] == segment[d + 1..];
      r
  }

  /** `path.extname(p)`. */
  function Extname(p: string): string
  {
    SegmentExtension(Basename(p))
  }

  /** `path.basename(file, path.extname(file))`, the entry name of one file:
      the last segment with its extension cut off. Putting the extension back
      gives the segment, and a non-empty segment never yields an empty name. */
  function EntryName(file: string): (r: string)
    ensures r + Extname(file) == Basename(file)
    ensures Basename(file) != [] ==> r != []
  {
    var segment := Basename(file);
    var ext := SegmentExtension(segment);
    assert Extname(file) == ext;
    var r := segment[..|segment| - |ext|];
    assert segment == r + ext;
    r
  }

  /** Scans `p` from position `i` down to 1 for the separator that precedes
      the last segment; `matched` holds while only separators were seen. */
  function DirEnd(p: string, i: int, matched: bool): (r: int)
    requires i < |p|
    ensures r == -1 || (1 <= r <= i && p[r] == '/')
    decreases i
  {
    if i < 1 then -1
    else if p[i] == '/' then (if !matched then i else DirEnd(p, i - 1, matched))
    else DirEnd(p, i - 1, false)
  }

  /** `path.dirname(p)`. */
  function Dirname(p: string): string
  {
    if |p| == 0 then "."
    else
      var end := DirEnd(p, |p| - 1, true);
      if end == -1 then (if p[0] == '/' then "/" else ".")
      else if p[0] == '/' && end == 1 then "//"
      else p[..end]
  }

  lemma {:induction false} DirEndFindsSeparator(p: string, i: int, matched: bool, j: int)
    requires 1 <= j <= i < |p| && p[j] == '/'
    requires forall k :: j < k <= i ==> p[k] != '/'
    requires matched ==> j < i
    ensures DirEnd(p, i, matched) == j
    decreases i
  {
    if i > j {
      DirEndFindsSeparator(p, i - 1, false, j);
    }
  }

  /** The last segment of `dir/name` is `name`. */
  lemma BasenameOfChild(dir: string, name: string)
    requires name != [] && '/' !in name
    ensures Basename(dir + "/" + name) == name
  {
    var p := dir + "/" + name;
    assert p[|dir|] == '/';
    assert p[|dir| + 1..] == name;
    assert StripTrailingSlashes(p) == p;
    assert LastIndexOf(p, '/') == |dir|;
  }

  /** A path made of a directory and a file name splits back into the two:
      `dirname` returns the directory and `basename` the name. */
  lemma DirnameBasename(dir: string, name: string)
    requires dir != [] && dir[|dir| - 1] != '/'
    requires name != [] && '/' !in name
    ensures Dirname(dir + "/" + name) == dir
    ensures Basename(dir + "/" + name) == name
  {
    DirnameOfChild(dir, name);
    BasenameOfChild(dir, name);
  }

  lemma DirnameOfChild(dir: string, name: string)
    requires dir != [] && dir[|dir| - 1] != '/'
    requires name != [] && '/' !in name
    ensures Dirname(dir + "/" + name) == dir
  {
    var p := dir + "/" + name;
    assert p[|dir|] == '/';
    forall k | |dir| < k < |p|
      ensures p[k] != '/'
    {
      assert p[k] == name[k - |dir| - 1];
    }
    DirEndFindsSeparator(p, |p| - 1, true, |dir|);
    assert !(p[0] == '/' && |dir| == 1);
    assert p[..|dir|] == dir;
  }

  /** The entry name of `dir/name.js` is `name`, whatever `name` holds apart
      from separators (`a.b.js` gives `a.b`). */
  lemma EntryNameOfScript(dir: string, name: string)
    requires name != [] && '/' !in name
    ensures EntryName(dir + "/" + name + ".js") == name
  {
    var segment := name + ".js";
    assert '/' !in segment by {
      forall k | 0 <= k < |segment|
        ensures segment[k] != '/'
      {
        if k < |name| {
          assert segment[k] == name[k];
        }
      }
    }
    assert dir + "/" + name + ".js" == dir + "/" + segment;
    BasenameOfChild(dir, segment);
    ScriptExtension(name);
    assert segment[..|segment| - 3] == name;
  }

  lemma ScriptExtension(name: string)
    requires name != []
    ensures SegmentExtension(name + ".js") == ".js"
  {
    var segment := name + ".js";
    assert segment[|name|] == '.';
    assert segment[|name| + 1..] == "js";
    assert LastIndexOf(segment, '.') == |name|;
    assert segment != ".." by {
      assert |segment| > 2;
    }
    assert segment[|name|..] == ".js";
  }

  /** `path.join(dir, name)` for a plain file name: exactly one separator
      between the two (the normalisation of `.` and `..` segments is not
      modelled). */
  function Join(dir: string, name: string): (r: string)
    ensures dir == [] ==> r == name
    ensures dir != [] ==> |r| == |dir| - (if dir[|dir| - 1] == '/' then 1 else 0) + 1 + |name|
  {
    if dir == [] then name
    else if dir[|dir| - 1] == '/' then dir[..|dir| - 1] + "/" + name
    else dir + "/" + name
  }

  /** The joined path ends in the file name, whatever the directory. */
  lemma JoinBasename(dir: string, name: string)
    requires name != [] && '/' !in name
    ensures Basename(Join(dir, name)) == name
  {
    if dir == [] {
      assert StripTrailingSlashes(name) == name;
      assert LastIndexOf(name, '/') == -1;
    } else if dir[|dir| - 1] == '/' {
      BasenameOfChild(dir[..|dir| - 1], name);
    } else {
      BasenameOfChild(dir, name);
    }
  }
}
