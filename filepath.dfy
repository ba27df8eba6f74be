/** The parts of Go's `path/filepath` the resolver uses, on '/'-separated strings.
    Of `filepath.Clean` only the removal of trailing separators is modelled. */
module FilePath {

  const Separator: char := '/'

  predicate IsSuffix(s: string, t: string)
  {
    |s| <= |t| && t[|t| - |s|..] == s
  }

  /** The part of `p` after its last separator: all of `p` when it has none, empty when `p` ends in one. */
  function LastSegment(p: string): (seg: string)
    ensures IsSuffix(seg, p)
    ensures Separator !in seg
    ensures |seg| == |p| || p[|p| - |seg| - 1] == Separator
  {
    if p == [] || p[|p| - 1] == Separator then []
    else
      var init := p[..|p| - 1];
      var seg := LastSegment(init) + [p[|p| - 1]];
      assert p[|p| - |seg|..] == init[|init| - (|seg| - 1)..] + [p[|p| - 1]];
      seg
  }

  /** `p` without its trailing separators. */
  function TrimTrailingSeparators(p: string): (t: string)
    ensures |t| <= |p| && t == p[..|t|]
    ensures t == [] || t[|t| - 1] != Separator
    ensures forall i :: |t| <= i < |p| ==> p[i] == Separator
  {
    if p != [] && p[|p| - 1] == Separator then TrimTrailingSeparators(p[..|p| - 1]) else p
  }

  /** `filepath.Base`: the last element of `p`; "." for the empty path and "/" for a path of separators only. */
  function Base(p: string): (b: string)
    ensures b != []
    ensures b == [Separator] || Separator !in b
    ensures p != [] && p[|p| - 1] != Separator ==> b == LastSegment(p)
    ensures p == [] ==> b == "."
    ensures var t := TrimTrailingSeparators(p);
            (p != [] && t == [] ==> b == [Separator]) && (t != [] ==> b == LastSegment(t))
  {
    if p == [] then "."
    else
      var t := TrimTrailingSeparators(p);
      if t == [] then [Separator] else LastSegment(t)
  }

  /** `filepath.Dir`: everything up to the last separator, trailing separators removed;
      "." when `p` has no separator, "/" when only separators precede the last element. */
  function Dir(p: string): (d: string)
    ensures d != []
    ensures Separator !in p ==> d == "."
    ensures d == [Separator] || d[|d| - 1] != Separator
  {
    var head := p[..|p| - |LastSegment(p)|];
    if head == [] then "."
    else
      var t := TrimTrailingSeparators(head);
      if t == [] then [Separator] else t
  }

  /** `filepath.Ext`: the suffix of `p` from the last '.' of its last element, or "" when that element has no '.'. */
  function Ext(p: string): (ext: string)
    ensures ext == [] <==> '.' !in LastSegment(p)
    ensures ext != [] ==> ext[0] == '.' && IsSuffix(ext, LastSegment(p)) && '.' !in ext[1..]
  {
    if p == [] || p[|p| - 1] == Separator then []
    else if p[|p| - 1] == '.' then "."
    else
      var init := p[..|p| - 1];
      var c := p[|p| - 1];
      var e := Ext(init);
      assert p == init + [c];
      LastSegmentSnoc(init, c);
      InSnoc(LastSegment(init), c, '.');
      if e == [] then []
      else
        SuffixSnoc(e, LastSegment(init), c);
        TailSnoc(e, c);
        e + [c]
  }

  /** The last element of `init + [c]`, for `c` not a separator, is that of `init` extended by `c`. */
  lemma LastSegmentSnoc(init: string, c: char)
    requires c != Separator
    ensures LastSegment(init + [c]) == LastSegment(init) + [c]
  {
    var p := init + [c];
    assert p[..|p| - 1] == init;
  }

  /** Appending a character other than `x` does not change whether `x` occurs. */
  lemma InSnoc(s: string, c: char, x: char)
    requires c != x
    ensures x in s + [c] <==> x in s
  {
    if x in s + [c] {
      var k :| 0 <= k < |s| + 1 && (s + [c])[k] == x;
      assert k < |s| && s[k] == x;
    }
  }

  lemma TailSnoc(s: string, c: char)
    requires s != []
    ensures (s + [c])[1..] == s[1..] + [c]
  {
  }

  lemma SuffixSnoc(s: string, t: string, c: char)
    requires IsSuffix(s, t)
    ensures IsSuffix(s + [c], t + [c])
  {
    assert (t + [c])[|t| - |s|..] == t[|t| - |s|..] + [c];
  }

  /** `fileutil.BuildPath` with one element: `dir` and `p` joined by one separator, empty parts dropped. */
  function JoinPath(dir: string, p: string): (j: string)
    ensures |dir| <= |j| && j[..|dir|] == dir
    ensures IsSuffix(p, j)
    ensures dir != [] && p != [] ==> |j| == |dir| + |p| + 1 && j[|dir|] == Separator
  {
    if dir == [] then p else if p == [] then dir else dir + [Separator] + p
  }

  /** A suffix free of separators is a suffix of the path exactly when it is one of the last element. */
  lemma SeparatorFreeSuffix(p: string, x: string)
    requires Separator !in x
    ensures IsSuffix(x, p) <==> IsSuffix(x, LastSegment(p))
  {
    var seg := LastSegment(p);
    if IsSuffix(x, p) {
      if |x| > |seg| {
        assert false;
      }
      assert seg[|seg| - |x|..] == p[|p| - |x|..];
    }
    if IsSuffix(x, seg) {
      assert p[|p| - |x|..] == seg[|seg| - |x|..];
    }
  }

  /** `LastSegment` is the only separator-free suffix that reaches back to a separator or to the start. */
  lemma LastSegmentUnique(p: string, x: string)
    requires IsSuffix(x, p) && Separator !in x
    requires |x| == |p| || p[|p| - |x| - 1] == Separator
    ensures LastSegment(p) == x
  {
    var seg := LastSegment(p);
    if |seg| != |x| {
      assert false;
    }
    assert seg == p[|p| - |x|..];
  }

  /** Splitting `dir/name` at its separator gives back `dir` and `name`. */
  lemma DirAndBaseOfJoin(dir: string, name: string)
    requires dir != [] && dir[|dir| - 1] != Separator
    requires name != [] && Separator !in name
    ensures Dir(dir + [Separator] + name) == dir
    ensures Base(dir + [Separator] + name) == name
  {
    var p := dir + [Separator] + name;
    assert p[|p| - |name|..] == name;
    assert p[|p| - |name| - 1] == Separator;
    LastSegmentUnique(p, name);
    var seg := LastSegment(p);
    var head := p[..|p| - |seg|];
    assert head == dir + [Separator];
    var t := TrimTrailingSeparators(head);
    if |t| < |dir| {
      assert false;
    }
    assert t == dir;
  }

  /** A directory named with a trailing separator is the directory itself. */
  lemma DirOfTrailingSeparator(p: string)
    requires p != [] && p[|p| - 1] != Separator
    ensures Dir(p + [Separator]) == p
  {
    var q := p + [Separator];
    assert q[..|q| - 1] == p;
  }

  /** A name directly under the root has the root as its directory. */
  lemma DirOfRootedName(name: string)
    requires name != [] && Separator !in name
    ensures Dir([Separator] + name) == [Separator]
  {
    var p := [Separator] + name;
    assert p[|p| - |name|..] == name;
    LastSegmentUnique(p, name);
    assert p[..|p| - |name|] == [Separator];
  }

  /** Trailing separators do not change the base name of a path that has an element. */
  lemma BaseOfTrailingSeparator(p: string)
    requires exists i :: 0 <= i < |p| && p[i] != Separator
    ensures Base(p + [Separator]) == Base(p)
  {
    var q := p + [Separator];
    assert q[..|q| - 1] == p;
  }

  /** A path of one element is its own base name, and its directory is ".". */
  lemma DirAndBaseOfName(name: string)
    requires name != [] && Separator !in name
    ensures Dir(name) == "."
    ensures Base(name) == name
  {
    var seg := LastSegment(name);
    assert |seg| == |name|;
    assert seg == name[|name| - |seg|..] == name;
  }

  /** A dotted extension with no further '.' is what `Ext` yields exactly when the last element ends with it. */
  lemma {:induction false} ExtOfDottedSuffix(p: string, x: string)
    requires |x| >= 1 && x[0] == '.' && '.' !in x[1..] && Separator !in x
    ensures Ext(p) == x <==> IsSuffix(x, LastSegment(p))
  {
    if IsSuffix(x, LastSegment(p)) {
      var init, c := p[..|p| - 1], p[|p| - 1];
      assert p == init + [c];
      LastSegmentSnoc(init, c);
      SuffixUnsnoc(x, LastSegment(p));
      if |x| > 1 {
        var x' := x[..|x| - 1];
        DottedInit(x);
        ExtOfDottedSuffix(init, x');
      }
    }
  }

  lemma DottedInit(x: string)
    requires |x| > 1 && x[0] == '.' && '.' !in x[1..] && Separator !in x
    ensures x[|x| - 1] != '.'
    ensures var x' := x[..|x| - 1]; x'[0] == '.' && '.' !in x'[1..] && Separator !in x' && x == x' + [x[|x| - 1]]
  {
    assert x[|x| - 1] == x[1..][|x| - 2];
    var x' := x[..|x| - 1];
    assert x'[1..] == x[1..][..|x| - 2];
  }

  lemma SuffixUnsnoc(s: string, t: string)
    requires |s| >= 1 && IsSuffix(s, t)
    ensures t != [] && t[|t| - 1] == s[|s| - 1]
    ensures IsSuffix(s[..|s| - 1], t[..|t| - 1])
  {
    assert t[|t| - 1] == t[|t| - |s|..][|s| - 1];
    assert t[..|t| - 1][|t| - |s|..] == t[|t| - |s|..][..|s| - 1];
  }
}
