/** The parts of Go's `path/filepath` that the scanner uses, for Unix paths
    (the separator is `/`), and the source's own `cleanName`. */
module FilePath {

  const Separator: char := '/'

  /** `p` with every trailing separator removed. */
  function TrimTrailingSeparators(p: string): (r: string)
    ensures |r| <= |p|
    ensures r == [] || r[|r| - 1] != Separator
    decreases |p|
  {
    if p != [] && p[|p| - 1] == Separator then TrimTrailingSeparators(p[..|p| - 1]) else p
  }

  /** Only separators are trimmed, and only at the end. */
  lemma {:induction false} TrimmedPrefix(p: string)
    ensures TrimTrailingSeparators(p) == p[..|TrimTrailingSeparators(p)|]
    ensures forall i :: |TrimTrailingSeparators(p)| <= i < |p| ==> p[i] == Separator
    decreases |p|
  {
    if p != [] && p[|p| - 1] == Separator {
      TrimmedPrefix(p[..|p| - 1]);
    }
  }

  /** The text after the last separator of `p` (all of `p` when it has none). */
  function LastElement(p: string): (r: string)
    ensures |r| <= |p|
    ensures Separator !in r
    ensures p != [] && p[|p| - 1] != Separator ==> r != []
    decreases |p|
  {
    if p == [] || p[|p| - 1] == Separator then []
    else LastElement(p[..|p| - 1]) + [p[|p| - 1]]
  }

  /** The last element is the suffix after the last separator. */
  lemma {:induction false} LastElementSuffix(p: string)
    ensures LastElement(p) == p[|p| - |LastElement(p)|..]
    ensures |LastElement(p)| < |p| ==> p[|p| - |LastElement(p)| - 1] == Separator
    decreases |p|
  {
    if p != [] && p[|p| - 1] != Separator {
      var init := p[..|p| - 1];
      LastElementSuffix(init);
      var r := LastElement(init);
      var n := |r|;
      assert LastElement(p) == r + [p[|p| - 1]];
      assert r == p[|p| - 1 - n..|p| - 1];
      assert p[|p| - 1 - n..] == p[|p| - 1 - n..|p| - 1] + [p[|p| - 1]];
      if n < |init| {
        assert p[|p| - n - 2] == init[|init| - n - 1];
      }
    }
  }

  /** A path without separators is its own last element. */
  lemma LastElementWhole(p: string)
    requires Separator !in p
    ensures LastElement(p) == p
  {
    LastElementSuffix(p);
  }

  /** `filepath.Base`: the last element of `p` once trailing separators are
      dropped; `"."` for the empty path and `"/"` for a path of separators only. */
  function Base(p: string): (r: string)
    ensures r != []
    ensures r == [Separator] || Separator !in r
    ensures p != [] && Separator !in p ==> r == p
  {
    if p == [] then "."
    else
      var q := TrimTrailingSeparators(p);
      if Separator !in p then LastElementWhole(p); assert q == p; LastElement(q)
      else if q == [] then [Separator] else LastElement(q)
  }

  /** `cleanName` (app/directory.go:118-122) is `filepath.Clean(filepath.Base(fp))`.
      Every result of `Base` (`"."`, `"/"`, or one element without separators,
      `".."` included) is already clean, so `Clean` changes nothing here. */
  function CleanName(fp: string): (r: string)
    ensures r != []
    ensures r == [Separator] || Separator !in r
    ensures fp != [] && Separator !in fp ==> r == fp
  {
    Base(fp)
  }

  /** `filepath.Ext`: the suffix of `path` from the last `.` of its last
      element on, or `""` when that element has no `.`. */
  function Ext(path: string): (r: string)
    ensures |r| <= |path|
    ensures r != [] ==> r[0] == '.'
    decreases |path|
  {
    if path == [] || path[|path| - 1] == Separator then []
    else if path[|path| - 1] == '.' then [path[|path| - 1]]
    else
      var init, last := path[..|path| - 1], path[|path| - 1];
      var e := Ext(init);
      if e == [] then [] else e + [last]
  }

  /** The extension is a suffix of `path` with a single `.`, at its start. */
  lemma {:induction false} ExtSuffix(path: string)
    ensures Ext(path) == path[|path| - |Ext(path)|..]
    ensures forall i :: 1 <= i < |Ext(path)| ==> Ext(path)[i] != '.' && Ext(path)[i] != Separator
    decreases |path|
  {
    if path != [] && path[|path| - 1] != Separator && path[|path| - 1] != '.' {
      ExtSuffix(path[..|path| - 1]);
    }
  }

  /** The extension is a suffix of the last element, so it never reaches into
      a directory part of the path; it is empty exactly when that element has
      no `.`. */
  lemma {:induction false} ExtOfLastElement(path: string)
    ensures |Ext(path)| <= |LastElement(path)|
    ensures Ext(path) == [] <==> '.' !in LastElement(path)
    decreases |path|
  {
    if path != [] && path[|path| - 1] != Separator {
      var init, last := path[..|path| - 1], path[|path| - 1];
      assert LastElement(path) == LastElement(init) + [last];
      if last != '.' {
        ExtOfLastElement(init);
      }
    }
  }

  /** A path whose last `.` is followed by `rest` (no further `.` or
      separator) has extension `.rest`, whatever comes before. */
  lemma {:induction false} ExtOfSuffix(stem: string, rest: string)
    requires '.' !in rest && Separator !in rest
    ensures Ext(stem + "." + rest) == "." + rest
    decreases |rest|
  {
    var path := stem + "." + rest;
    if rest != [] {
      var init := rest[..|rest| - 1];
      assert path[..|path| - 1] == stem + "." + init;
      assert path[|path| - 1] == rest[|rest| - 1];
      ExtOfSuffix(stem, init);
      assert "." + init + [rest[|rest| - 1]] == "." + rest;
    }
  }
}
