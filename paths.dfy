/**
 * A simplified model of Node's Windows `path` module, enough for the watcher's
 * path translation. A path is read as the list of its segments: the maximal
 * runs of characters between separators (`/` or `\`), empty runs dropped. A
 * list of segments is written back with `\` between segments. Drive letters
 * are ordinary segments; `.` and `..`, a leading root separator, UNC prefixes
 * and case-insensitive comparison are not modelled.
 */
module Paths {

  predicate IsSeparator(c: char)
  {
    c == '/' || c == '\\'
  }

  /** A well-formed segment: non-empty and free of separators. */
  predicate IsSegment(s: string)
  {
    s != [] && forall k :: 0 <= k < |s| ==> !IsSeparator(s[k])
  }

  predicate AllSegments(segs: seq<string>)
  {
    forall i :: 0 <= i < |segs| ==> IsSegment(segs[i])
  }

  /** The length of the run of non-separator characters that starts `p`. */
  function SegmentLength(p: string): (n: nat)
    ensures n <= |p|
    ensures forall k :: 0 <= k < n ==> !IsSeparator(p[k])
    ensures n < |p| ==> IsSeparator(p[n])
  {
    if p == [] || IsSeparator(p[0]) then 0 else 1 + SegmentLength(p[1..])
  }

  /** The segments of a path, in order. */
  function Segments(p: string): (r: seq<string>)
    ensures AllSegments(r)
    decreases |p|
  {
    if p == [] then []
    else if IsSeparator(p[0]) then Segments(p[1..])
    else
      var n := SegmentLength(p);
      [p[..n]] + Segments(p[n..])
  }

  /** Segments written back with `sep` between them. */
  function Render(segs: seq<string>, sep: char): string
  {
    if segs == [] then ""
    else if |segs| == 1 then segs[0]
    else segs[0] + [sep] + Render(segs[1..], sep)
  }

  /** Reading back a rendered list of segments gives the same segments. */
  lemma {:induction false} SegmentsOfRender(segs: seq<string>, sep: char)
    requires IsSeparator(sep) && AllSegments(segs)
    ensures Segments(Render(segs, sep)) == segs
    decreases |segs|
  {
    if segs != [] {
      var p := Render(segs, sep);
      var head := segs[0];
      var tail := if |segs| == 1 then "" else [sep] + Render(segs[1..], sep);
      assert p == head + tail;
      assert p[..|head|] == head;
      SegmentLengthOfHead(head, tail);
      var n := SegmentLength(p);
      assert p[n..] == tail;
      if |segs| > 1 {
        assert Segments(tail) == Segments(Render(segs[1..], sep));
        SegmentsOfRender(segs[1..], sep);
        assert [head] + segs[1..] == segs;
      }
    }
  }

  /** A segment followed by a separator (or nothing) is read as one segment. */
  lemma {:induction false} SegmentLengthOfHead(head: string, tail: string)
    requires IsSegment(head) && (tail == [] || IsSeparator(tail[0]))
    ensures SegmentLength(head + tail) == |head|
    decreases |head|
  {
    assert (head + tail)[1..] == head[1..] + tail;
    if |head| > 1 {
      SegmentLengthOfHead(head[1..], tail);
    }
  }

  /** Reading a path that starts with a segment and a separator. */
  lemma SegmentsOfSegmentThen(head: string, sep: char, rest: string)
    requires IsSegment(head) && IsSeparator(sep)
    ensures Segments(head + [sep] + rest) == [head] + Segments(rest)
    ensures Segments(head) == [head]
  {
    SegmentLengthOfHead(head, [sep] + rest);
    SegmentLengthOfHead(head, []);
    var p := head + [sep] + rest;
    assert p[..|head|] == head && p[|head|..] == [sep] + rest;
    assert ([sep] + rest)[1..] == rest;
    assert head + [] == head;
  }

  /** A rendering never contains the other separator than the one used. */
  lemma {:induction false} RenderWithoutBackslash(segs: seq<string>)
    requires AllSegments(segs)
    ensures '\\' !in Render(segs, '/')
    ensures Render(segs, '/') != [] ==> Render(segs, '/')[0] != '/'
    decreases |segs|
  {
    if |segs| > 1 {
      RenderWithoutBackslash(segs[1..]);
      assert segs[0][0] != '/';
      var r := Render(segs, '/');
      assert r == segs[0] + ['/'] + Render(segs[1..], '/');
      forall k | 0 <= k < |r| ensures r[k] != '\\' {
        if k < |segs[0]| {
          assert r[k] == segs[0][k];
        } else if k > |segs[0]| {
          assert r[k] == Render(segs[1..], '/')[k - |segs[0]| - 1];
        }
      }
    } else if |segs| == 1 {
      assert segs[0][0] != '/';
      assert forall k :: 0 <= k < |segs[0]| ==> segs[0][k] != '\\';
    }
  }

  /** `s.replace(/\\/g, '/')`. */
  function ReplaceBackslashes(s: string): (r: string)
    ensures |r| == |s|
    ensures forall k :: 0 <= k < |s| ==> r[k] == if s[k] == '\\' then '/' else s[k]
  {
    if s == [] then [] else [if s[0] == '\\' then '/' else s[0]] + ReplaceBackslashes(s[1..])
  }

  /** Rewriting the separators of a `\`-rendering gives the `/`-rendering. */
  lemma {:induction false} ReplaceRender(segs: seq<string>)
    requires AllSegments(segs)
    ensures ReplaceBackslashes(Render(segs, '\\')) == Render(segs, '/')
    decreases |segs|
  {
    if |segs| > 1 {
      ReplaceRender(segs[1..]);
      var a := Render(segs, '\\');
      var b := Render(segs, '/');
      assert a == segs[0] + ['\\'] + Render(segs[1..], '\\');
      assert b == segs[0] + ['/'] + Render(segs[1..], '/');
      var ra := ReplaceBackslashes(a);
      forall k | 0 <= k < |a| ensures ra[k] == b[k] {
        if k > |segs[0]| {
          assert a[k] == Render(segs[1..], '\\')[k - |segs[0]| - 1];
          assert b[k] == Render(segs[1..], '/')[k - |segs[0]| - 1];
        }
      }
    } else if |segs| == 1 {
      assert forall k :: 0 <= k < |segs[0]| ==> segs[0][k] != '\\';
    }
  }

  /** Every segment but the last: the directory part of a path. */
  function DirSegments(p: string): (r: seq<string>)
    ensures AllSegments(r)
  {
    var segs := Segments(p);
    if segs == [] then [] else segs[..|segs| - 1]
  }

  /** `path.parse(p).dir`, with the separators normalised to `\`. */
  function DirName(p: string): string
  {
    Render(DirSegments(p), '\\')
  }

  /** `path.join(a, b)`: the segments of `a` followed by those of `b`. */
  function JoinPath(a: string, b: string): string
  {
    Render(Segments(a) + Segments(b), '\\')
  }

  /** `path.normalize(p)` and `path.resolve(p)` for an absolute `p`. */
  function NormalizePath(p: string): string
  {
    Render(Segments(p), '\\')
  }

  /**
   * The segments leading from `from` to `to`: drop the common leading segments,
   * climb out of what is left of `from` with `..`, then descend into `to`.
   */
  function RelativeSegments(from: seq<string>, to: seq<string>): seq<string>
  {
    if from != [] && to != [] && from[0] == to[0] then RelativeSegments(from[1..], to[1..])
    else seq(|from|, _ => "..") + to
  }

  /** `path.relative(from, to)`. */
  function RelativePath(from: string, to: string): string
  {
    Render(RelativeSegments(Segments(from), Segments(to)), '\\')
  }

  /** A path below `base` is reached from `base` by its extra segments alone. */
  lemma {:induction false} RelativeOfExtension(base: seq<string>, rest: seq<string>)
    ensures RelativeSegments(base, base + rest) == rest
    decreases |base|
  {
    if base != [] {
      assert (base + rest)[1..] == base[1..] + rest;
      RelativeOfExtension(base[1..], rest);
    }
  }

  /** A relative path is made of well-formed segments, `..` among them. */
  lemma {:induction false} RelativeSegmentsAreSegments(from: seq<string>, to: seq<string>)
    requires AllSegments(from) && AllSegments(to)
    ensures AllSegments(RelativeSegments(from, to))
    decreases |from|
  {
    if from != [] && to != [] && from[0] == to[0] {
      RelativeSegmentsAreSegments(from[1..], to[1..]);
    } else {
      var up := seq(|from|, _ => "..");
      assert IsSegment("..");
      assert RelativeSegments(from, to) == up + to;
    }
  }

  /** `path.relative` never yields a rooted path here: its `/` form starts with no separator. */
  lemma RelativePathUnrooted(from: string, to: string)
    ensures var p := ReplaceBackslashes(RelativePath(from, to));
            p == [] || p[0] != '/'
  {
    var segs := RelativeSegments(Segments(from), Segments(to));
    RelativeSegmentsAreSegments(Segments(from), Segments(to));
    ReplaceRender(segs);
    RenderWithoutBackslash(segs);
  }
}
