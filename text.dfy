/**
 * The JavaScript string operations the core relies on: `trim`, `split` with a
 * string separator, and `join`.
 */
module Text {

  /**
   * The characters `String.prototype.trim` removes: ECMAScript WhiteSpace
   * (tab, vertical tab, form feed, space, no-break space, byte order mark and
   * the Unicode space separators) and LineTerminator.
   */
  predicate IsJsWhitespace(c: char)
  {
    || c == '\t' || c == '\U{000B}' || c == '\U{000C}' || c == ' ' || c == '\U{00A0}' || c == '\U{FEFF}'
    || c == '\U{1680}' || ('\U{2000}' <= c <= '\U{200A}') || c == '\U{202F}' || c == '\U{205F}' || c == '\U{3000}'
    || c == '\n' || c == '\r' || c == '\U{2028}' || c == '\U{2029}'
  }

  function TrimStart(s: string): (r: string)
    ensures |r| <= |s| && r == s[|s| - |r|..]
    ensures forall k :: 0 <= k < |s| - |r| ==> IsJsWhitespace(s[k])
    ensures r != [] ==> !IsJsWhitespace(r[0])
  {
    if s != [] && IsJsWhitespace(s[0]) then TrimStart(s[1..]) else s
  }

  function TrimEnd(s: string): (r: string)
    ensures |r| <= |s| && r == s[..|r|]
    ensures forall k :: |r| <= k < |s| ==> IsJsWhitespace(s[k])
    ensures r != [] ==> !IsJsWhitespace(r[|r| - 1])
  {
    if s != [] && IsJsWhitespace(s[|s| - 1]) then TrimEnd(s[..|s| - 1]) else s
  }

  /** `s.trim()`: `s` without its leading and trailing whitespace. */
  function Trim(s: string): (r: string)
    ensures exists i, j :: 0 <= i <= j <= |s| && r == s[i..j]
                           && (forall k :: 0 <= k < i ==> IsJsWhitespace(s[k]))
                           && (forall k :: j <= k < |s| ==> IsJsWhitespace(s[k]))
    ensures r != [] ==> !IsJsWhitespace(r[0]) && !IsJsWhitespace(r[|r| - 1])
  {
    var t := TrimStart(s);
    var r := TrimEnd(t);
    var i := |s| - |t|;
    assert r == s[i..i + |r|];
    r
  }

  /** A string that neither starts nor ends with whitespace is its own trim. */
  lemma TrimUnchanged(s: string)
    requires s != [] && !IsJsWhitespace(s[0]) && !IsJsWhitespace(s[|s| - 1])
    ensures Trim(s) == s
  {
  }

  /** `pieces.join(sep)`. */
  function Join(pieces: seq<string>, sep: string): string
  {
    if pieces == [] then ""
    else if |pieces| == 1 then pieces[0]
    else pieces[0] + sep + Join(pieces[1..], sep)
  }

  predicate StartsWith(s: string, prefix: string)
  {
    |prefix| <= |s| && s[..|prefix|] == prefix
  }

  /** `sep` occurs in `s` at index `k`. */
  predicate OccursAt(s: string, sep: string, k: int)
  {
    0 <= k <= |s| - |sep| && s[k..k + |sep|] == sep
  }

  /** `s` contains `sep` somewhere. */
  predicate Contains(s: string, sep: string)
  {
    exists k :: 0 <= k <= |s| && OccursAt(s, sep, k)
  }

  /**
   * `s.split(sep)` for a non-empty separator: the pieces between the
   * occurrences of `sep` found left to right without overlap. There is always
   * at least one piece; the first is a prefix of `s`.
   */
  function Split(s: string, sep: string): (r: seq<string>)
    requires sep != []
    ensures |r| > 0 && StartsWith(s, r[0])
    decreases |s|
  {
    if StartsWith(s, sep) then [""] + Split(s[|sep|..], sep)
    else if s == [] then [""]
    else
      var rest := Split(s[1..], sep);
      [[s[0]] + rest[0]] + rest[1..]
  }

  /** Joining the pieces of a split with the same separator gives the string back. */
  lemma {:induction false} JoinSplit(s: string, sep: string)
    requires sep != []
    ensures Join(Split(s, sep), sep) == s
    decreases |s|
  {
    if StartsWith(s, sep) {
      var t := s[|sep|..];
      JoinSplit(t, sep);
      assert Split(s, sep) == [[]] + Split(t, sep);
      JoinAfterEmpty(Split(t, sep), sep);
      assert s == sep + t;
    } else if s != [] {
      var rest := Split(s[1..], sep);
      JoinSplit(s[1..], sep);
      assert Split(s, sep) == [[s[0]] + rest[0]] + rest[1..];
      JoinAfterChar(s[0], rest, sep);
      assert s == [s[0]] + s[1..];
    }
  }

  /** An empty first piece contributes only the separator. */
  lemma JoinAfterEmpty(rest: seq<string>, sep: string)
    requires rest != []
    ensures Join([[]] + rest, sep) == sep + Join(rest, sep)
  {
    assert ([[]] + rest)[1..] == rest;
  }

  /** Prefixing a character to the first piece prefixes it to the join. */
  lemma JoinAfterChar(c: char, rest: seq<string>, sep: string)
    requires rest != []
    ensures Join([[c] + rest[0]] + rest[1..], sep) == [c] + Join(rest, sep)
  {
    var r := [[c] + rest[0]] + rest[1..];
    if |rest| > 1 {
      assert r[1..] == rest[1..];
      var tail := Join(rest[1..], sep);
      assert Join(r, sep) == [c] + rest[0] + sep + tail;
      assert Join(rest, sep) == rest[0] + sep + tail;
    }
  }

  /** No piece of a split on a two-character separator contains that separator. */
  lemma {:induction false} SplitPiecesAvoidSeparator(s: string, sep: string)
    requires |sep| == 2
    ensures forall i :: 0 <= i < |Split(s, sep)| ==> !Contains(Split(s, sep)[i], sep)
    decreases |s|
  {
    var r := Split(s, sep);
    if StartsWith(s, sep) {
      var rest := Split(s[2..], sep);
      assert r == [""] + rest;
      SplitPiecesAvoidSeparator(s[2..], sep);
      assert !Contains("", sep);
    } else if s != [] {
      var rest := Split(s[1..], sep);
      assert r == [[s[0]] + rest[0]] + rest[1..];
      SplitPiecesAvoidSeparator(s[1..], sep);
      HeadAvoidsSeparator(s, rest[0], sep);
    }
  }

  /** The step of the lemma above: prefixing a character cannot create a separator. */
  lemma HeadAvoidsSeparator(s: string, tail: string, sep: string)
    requires |sep| == 2 && s != [] && !StartsWith(s, sep)
    requires StartsWith(s[1..], tail) && !Contains(tail, sep)
    ensures !Contains([s[0]] + tail, sep)
  {
    var head := [s[0]] + tail;
    if k :| OccursAt(head, sep, k) {
      if k > 0 {
        assert tail[k - 1..k + 1] == head[k..k + 2];
        assert OccursAt(tail, sep, k - 1);
      }
    }
  }

  /** Splitting on one character undoes a join when no piece contains it. */
  lemma {:induction false} SplitJoin(pieces: seq<string>, c: char)
    requires pieces != []
    requires forall i :: 0 <= i < |pieces| ==> c !in pieces[i]
    ensures Split(Join(pieces, [c]), [c]) == pieces
    decreases |pieces|
  {
    if |pieces| == 1 {
      SplitWithout(pieces[0], [], c);
      assert pieces[0] + [] == pieces[0];
    } else {
      SplitJoin(pieces[1..], c);
      SplitWithout(pieces[0], [c] + Join(pieces[1..], [c]), c);
      assert pieces[0] + [c] + Join(pieces[1..], [c]) == pieces[0] + ([c] + Join(pieces[1..], [c]));
      assert [pieces[0]] + pieces[1..] == pieces;
    }
  }

  /**
   * A leading run without `c` becomes the first piece (merged with whatever
   * the rest begins with).
   */
  lemma {:induction false} SplitWithout(a: string, b: string, c: char)
    requires c !in a
    ensures Split(a + b, [c]) == [a + Split(b, [c])[0]] + Split(b, [c])[1..]
    decreases |a|
  {
    if a != [] {
      assert (a + b)[1..] == a[1..] + b;
      assert !StartsWith(a + b, [c]);
      SplitWithout(a[1..], b, c);
      assert [a[0]] + (a[1..] + Split(b, [c])[0]) == a + Split(b, [c])[0];
    } else {
      assert a + b == b;
      var r := Split(b, [c]);
      assert a + r[0] == r[0];
      assert [r[0]] + r[1..] == r;
    }
  }
}
