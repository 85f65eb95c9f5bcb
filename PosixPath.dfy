/**
 * POSIX `path.resolve`, `path.join` and `path.basename` as the git and SSH
 * helpers use them. A resolved path is kept as its list of segments: no
 * segment is empty, holds a slash, or is `.` or `..`.
 *
 * Node walks the arguments of `resolve` from the right until it has an
 * absolute path and normalises the concatenation once; walking them from the
 * left and normalising after each one gives the same segments, because
 * normalisation is a left fold over segments and `..` at the root stays at
 * the root. The working directory is a parameter.
 */
module PosixPath {
  import opened Js

  /** A segment of a normalised path. */
  predicate IsSegment(s: string) {
    |s| > 0 && '/' !in s && s != "." && s != ".."
  }

  predicate Normal(segs: seq<string>) {
    forall i :: 0 <= i < |segs| ==> IsSegment(segs[i])
  }

  predicate NoSlash(parts: seq<string>) {
    forall i :: 0 <= i < |parts| ==> '/' !in parts[i]
  }

  /** One raw part of a path applied to a normalised path: empty parts and
      `.` change nothing, `..` drops the last segment (not above the root),
      anything else is appended. */
  function Step(segs: seq<string>, part: string): (r: seq<string>)
    requires Normal(segs) && '/' !in part
    ensures Normal(r)
    ensures IsSegment(part) ==> r == segs + [part]
  {
    if |part| == 0 || part == "." then segs
    else if part == ".." then (if |segs| == 0 then segs else segs[..|segs| - 1])
    else segs + [part]
  }

  /** The parts applied one after the other. */
  function Walk(segs: seq<string>, parts: seq<string>): (r: seq<string>)
    requires Normal(segs) && NoSlash(parts)
    ensures Normal(r)
    decreases |parts|
  {
    if |parts| == 0 then segs else Walk(Step(segs, parts[0]), parts[1..])
  }

  /** Walking a concatenation walks one part list, then the other. */
  lemma {:induction false} WalkAppend(segs: seq<string>, xs: seq<string>, ys: seq<string>)
    requires Normal(segs) && NoSlash(xs) && NoSlash(ys)
    ensures NoSlash(xs + ys)
    ensures Walk(segs, xs + ys) == Walk(Walk(segs, xs), ys)
    decreases |xs|
  {
    assert forall i :: 0 <= i < |xs + ys| ==> (xs + ys)[i] == if i < |xs| then xs[i] else ys[i - |xs|];
    if |xs| > 0 {
      assert (xs + ys)[0] == xs[0];
      assert (xs + ys)[1..] == xs[1..] + ys;
      WalkAppend(Step(segs, xs[0]), xs[1..], ys);
      assert Walk(segs, xs + ys) == Walk(Step(segs, xs[0]), xs[1..] + ys);
    } else {
      assert xs + ys == ys;
    }
  }

  /** Segments walk onto the end of a path unchanged. */
  lemma {:induction false} WalkSegments(segs: seq<string>, more: seq<string>)
    requires Normal(segs) && Normal(more)
    ensures NoSlash(more) && Walk(segs, more) == segs + more
    decreases |more|
  {
    if |more| > 0 {
      WalkSegments(segs + [more[0]], more[1..]);
      assert segs + [more[0]] + more[1..] == segs + more;
    }
  }

  /** The text of a normalised path. */
  function Render(segs: seq<string>): (r: string)
    ensures |r| > 0 && r[0] == '/'
  {
    "/" + Join(segs, "/")
  }

  predicate IsAbsolute(path: string) {
    |path| > 0 && path[0] == '/'
  }

  /** `path.resolve(base, path)` with `base` already resolved. */
  function ResolveFrom(base: seq<string>, path: string): (r: seq<string>)
    requires Normal(base)
    ensures Normal(r)
  {
    if IsAbsolute(path) then Walk([], Split(path, '/')) else Walk(base, Split(path, '/'))
  }

  /** `path.basename(p)` of a resolved path: its last segment, or the empty
      string for the root. */
  function Basename(segs: seq<string>): (r: string)
    ensures |segs| > 0 ==> r == segs[|segs| - 1]
    ensures |segs| == 0 ==> r == ""
  {
    if |segs| == 0 then "" else segs[|segs| - 1]
  }

  /** `prefix` is a leading part of `segs`. */
  predicate IsPrefix(prefix: seq<string>, segs: seq<string>) {
    |prefix| <= |segs| && segs[..|prefix|] == prefix
  }

  // ---------------------------------------------------------------------------
  // Round trip between segments and text

  lemma SegmentsHaveNoSlash(segs: seq<string>)
    requires Normal(segs)
    ensures NoSlash(segs)
  {
  }

  /** Resolving the text of a normalised path gives its segments back,
      whatever the base. */
  lemma RenderResolves(base: seq<string>, segs: seq<string>)
    requires Normal(base) && Normal(segs)
    ensures ResolveFrom(base, Render(segs)) == segs
  {
    if |segs| == 0 {
      assert Render(segs) == "/" == [] + ['/'] + [];
      SplitAppend([], [], '/');
      assert Split([], '/') == [""];
      assert Walk([], ["", ""]) == [];
    } else {
      SplitJoin(segs, '/');
      assert Render(segs) == [] + ['/'] + Join(segs, "/");
      SplitAppend([], Join(segs, "/"), '/');
      WalkSegments([], segs);
      assert Split(Render(segs), '/') == [""] + segs;
      assert ([""] + segs)[1..] == segs;
    }
  }

  // ---------------------------------------------------------------------------
  // Text prefixes of rendered paths are segment prefixes

  /** Two texts that each start with a slash-free, non-empty first part:
      one starts with the other exactly when the first parts agree and the
      rest does too. */
  lemma FirstPart(x: string, u: string, y: string, v: string)
    requires |x| > 0 && |y| > 0 && '/' !in x && '/' !in y
    ensures StartsWith(x + "/" + u, y + "/" + v) <==> x == y && StartsWith(u, v)
  {
    var a := x + "/" + u;
    var b := y + "/" + v;
    if StartsWith(a, b) {
      if |x| < |y| {
        PrefixChar(a, b, |x|);
        assert false;
      } else if |y| < |x| {
        PrefixChar(a, b, |y|);
        assert false;
      }
      {
        assert forall i :: 0 <= i < |x| ==> x[i] == a[i] == b[i] == y[i];
        assert x == y;
        assert forall i :: 0 <= i < |v| ==> u[i] == a[|x| + 1 + i] == b[|x| + 1 + i] == v[i];
        assert u[..|v|] == v;
      }
    }
    if x == y && StartsWith(u, v) {
      assert a[..|b|] == x + "/" + u[..|v|];
    }
  }

  lemma PrefixChar(a: string, b: string, k: nat)
    requires StartsWith(a, b) && k < |b|
    ensures a[k] == b[k]
  {
    assert a[..|b|][k] == a[k];
  }

  /** A slash-free text starts with no text holding a slash. */
  lemma NoSlashNoPrefix(x: string, y: string, v: string)
    requires '/' !in x
    ensures !StartsWith(x, y + "/" + v)
  {
    if StartsWith(x, y + "/" + v) {
      PrefixChar(x, y + "/" + v, |y|);
      assert false;
    }
  }

  lemma JoinSplitOff(t: seq<string>)
    requires |t| > 1
    ensures Join(t, "/") == t[0] + "/" + Join(t[1..], "/")
  {
  }

  /** For a non-empty root, `target` starts with `root + "/"` as text exactly
      when the root's segments lead the target's and the target is longer. */
  lemma {:induction false} JoinStartsWith(r: seq<string>, t: seq<string>)
    requires Normal(r) && Normal(t) && |r| > 0
    ensures StartsWith(Join(t, "/"), Join(r, "/") + "/") <==> |r| < |t| && t[..|r|] == r
    decreases |r|
  {
    if |t| == 0 {
      assert Join(t, "/") == "";
    } else if |t| == 1 {
      if |r| == 1 {
        NoSlashNoPrefix(t[0], r[0], "");
      } else {
        JoinSplitOff(r);
        assert Join(r, "/") + "/" == r[0] + "/" + (Join(r[1..], "/") + "/");
        NoSlashNoPrefix(t[0], r[0], Join(r[1..], "/") + "/");
      }
    } else {
      JoinSplitOff(t);
      if |r| == 1 {
        FirstPart(t[0], Join(t[1..], "/"), r[0], "");
        assert r[0] + "/" + "" == Join(r, "/") + "/";
      } else {
        JoinSplitOff(r);
        assert Join(r, "/") + "/" == r[0] + "/" + (Join(r[1..], "/") + "/");
        FirstPart(t[0], Join(t[1..], "/"), r[0], Join(r[1..], "/") + "/");
        JoinStartsWith(r[1..], t[1..]);
        if |r| <= |t| {
          assert t[..|r|] == [t[0]] + t[1..][..|r| - 1];
        }
        assert r == [r[0]] + r[1..];
      }
    }
  }

  /** Distinct normalised paths have distinct texts. */
  lemma {:induction false} JoinInjective(r: seq<string>, t: seq<string>)
    requires Normal(r) && Normal(t)
    ensures Join(r, "/") == Join(t, "/") <==> r == t
    decreases |r|
  {
    if Join(r, "/") == Join(t, "/") {
      if |r| == 0 && |t| == 0 {
      } else if |r| == 0 || |t| == 0 {
        assert false;
      } else if |r| == 1 && |t| == 1 {
      } else if |r| == 1 {
        JoinSplitOff(t);
        assert false;
      } else if |t| == 1 {
        JoinSplitOff(r);
        assert false;
      } else {
        JoinSplitOff(r);
        JoinSplitOff(t);
        var u := Join(r[1..], "/");
        var v := Join(t[1..], "/");
        assert StartsWith(r[0] + "/" + u, t[0] + "/" + v);
        FirstPart(r[0], u, t[0], v);
        assert |r[0] + "/"| == |t[0] + "/"|;
        assert u == (r[0] + "/" + u)[|r[0]| + 1..];
        assert v == (t[0] + "/" + v)[|t[0]| + 1..];
        JoinInjective(r[1..], t[1..]);
        assert r == [r[0]] + r[1..] && t == [t[0]] + t[1..];
      }
    }
  }

  /** The containment test on resolved texts used by the git helpers:
      `target === root || target.startsWith(root + sep)`. */
  predicate TextInside(root: seq<string>, target: seq<string>)
    requires Normal(root) && Normal(target)
  {
    Render(target) == Render(root) || StartsWith(Render(target), Render(root) + "/")
  }

  /** For any root but `/`, a rendered target starts with the rendered root
      and a slash exactly when it lies strictly below the root. */
  lemma RenderStartsWith(root: seq<string>, target: seq<string>)
    requires Normal(root) && Normal(target) && |root| > 0
    ensures StartsWith(Render(target), Render(root) + "/") <==> IsPrefix(root, target) && |root| < |target|
  {
    JoinStartsWith(root, target);
    var x := Join(target, "/");
    var y := Join(root, "/") + "/";
    assert Render(root) + "/" == "/" + y;
    if StartsWith(x, y) { assert ("/" + x)[..|"/" + y|] == "/" + x[..|y|]; }
    if StartsWith("/" + x, "/" + y) {
      assert x[..|y|] == ("/" + x)[..|"/" + y|][1..];
    }
  }

  /** For any root but `/`, the text test is segment containment. */
  lemma TextInsideIsPrefix(root: seq<string>, target: seq<string>)
    requires Normal(root) && Normal(target) && |root| > 0
    ensures TextInside(root, target) <==> IsPrefix(root, target)
  {
    JoinInjective(root, target);
    RenderStartsWith(root, target);
    if Render(target) == Render(root) {
      assert Join(target, "/") == Render(target)[1..] && Join(root, "/") == Render(root)[1..];
    }
  }

  /** The root directory itself contains nothing but itself under the text
      test: `"/" + sep` is `//`, which no resolved path starts with. */
  lemma RootContainsOnlyItself(target: seq<string>)
    requires Normal(target)
    ensures TextInside([], target) <==> target == []
  {
    if |target| > 0 {
      var x := Join(target, "/");
      if |target| == 1 {
        assert x == target[0];
      } else {
        JoinSplitOff(target);
        assert x[0] == target[0][0];
      }
      assert Render(target)[1] == x[0] != '/';
      assert Render([]) + "/" == "//";
      assert Render(target) != Render([]);
    }
  }
}
