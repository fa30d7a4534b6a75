/**
 * Path splitting for the breadcrumb bar (frontend/src/utils/string.util.ts, `splitPaths`):
 * JavaScript's `path.split("/")` followed by a filter that drops the empty pieces.
 */
module Paths {

  const Slash: char := '/'

  /**
   * JavaScript's `s.split("/")`: the maximal runs between separators, in order.
   * There is always at least one piece: `"".split("/")` is `[""]`.
   */
  function Split(s: string): (pieces: seq<string>)
    ensures |pieces| >= 1
  {
    if |s| == 0 then [""]
    else
      var rest := Split(s[1..]);
      if s[0] == Slash then [""] + rest
      else [[s[0]] + rest[0]] + rest[1..]
  }

  /** `parts.filter((part) => part !== "")`, keeping the order of the survivors. */
  function DropEmpty(parts: seq<string>): (kept: seq<string>)
    ensures forall i :: 0 <= i < |kept| ==> kept[i] != ""
    ensures |kept| <= |parts|
  {
    if |parts| == 0 then []
    else if parts[0] == "" then DropEmpty(parts[1..])
    else [parts[0]] + DropEmpty(parts[1..])
  }

  /** `splitPaths(path)`: the non-empty, slash-free segments of `path`. */
  function SplitPaths(path: string): (segments: seq<string>)
    ensures forall i :: 0 <= i < |segments| ==> segments[i] != "" && Slash !in segments[i]
  {
    var pieces := Split(path);
    PiecesSlashFree(path);
    DropEmptyKeepsPieces(pieces);
    DropEmpty(pieces)
  }

  /** `parts.join("/")`, the inverse of `Split`. */
  function Join(parts: seq<string>): string
  {
    if |parts| == 0 then ""
    else if |parts| == 1 then parts[0]
    else parts[0] + [Slash] + Join(parts[1..])
  }

  /** The characters of `parts` laid end to end. */
  function Concat(parts: seq<string>): string
  {
    if |parts| == 0 then "" else parts[0] + Concat(parts[1..])
  }

  /** The characters of `s` other than slashes, in order. */
  function WithoutSlashes(s: string): string
  {
    if |s| == 0 then ""
    else if s[0] == Slash then WithoutSlashes(s[1..])
    else [s[0]] + WithoutSlashes(s[1..])
  }

  /** An absolute path `/a/b/c` with no empty segment: no doubled or trailing slash, and not `/` alone. */
  predicate IsCanonicalAbsolute(path: string)
  {
    |path| > 0 && path[0] == Slash &&
    forall i :: 0 <= i < |Split(path[1..])| ==> Split(path[1..])[i] != ""
  }

  // ----- Split -----

  /** No piece of a split holds a slash. */
  lemma {:induction false} PiecesSlashFree(s: string)
    ensures forall i :: 0 <= i < |Split(s)| ==> Slash !in Split(s)[i]
    decreases |s|
  {
    if |s| > 0 {
      PiecesSlashFree(s[1..]);
    }
  }

  /** Sequence bookkeeping for a leading empty piece, kept apart from `Split`. */
  lemma ConsAssoc(x: string, ra: seq<string>, rb: seq<string>)
    ensures [x] + (ra + rb) == ([x] + ra) + rb
  {
  }

  /** Sequence bookkeeping for a first character joining the first piece, kept apart from `Split`. */
  lemma JoinFirstPiece(c: char, ra: seq<string>, rb: seq<string>)
    requires |ra| >= 1
    ensures [[c] + (ra + rb)[0]] + (ra + rb)[1..] == ([[c] + ra[0]] + ra[1..]) + rb
  {
    assert (ra + rb)[1..] == ra[1..] + rb;
  }

  /** One step of `Split` on a non-empty prefix of `s`. */
  lemma SplitPrefixStep(s: string, k: nat)
    requires 0 < k <= |s|
    ensures Split(s[..k]) ==
      if s[0] == Slash then [""] + Split(s[1..][..k - 1])
      else [[s[0]] + Split(s[1..][..k - 1])[0]] + Split(s[1..][..k - 1])[1..]
  {
    assert s[..k][1..] == s[1..][..k - 1];
  }

  /** Splitting at the slash in position `k` splits both sides independently. */
  lemma {:induction false} SplitAt(s: string, k: nat)
    requires k < |s| && s[k] == Slash
    ensures Split(s) == Split(s[..k]) + Split(s[k + 1..])
    decreases k
  {
    if k == 0 {
      assert s[..0] == "";
    } else {
      SplitAt(s[1..], k - 1);
      assert s[1..][k..] == s[k + 1..];
      SplitPrefixStep(s, k);
      if s[0] == Slash {
        ConsAssoc("", Split(s[1..][..k - 1]), Split(s[k + 1..]));
      } else {
        JoinFirstPiece(s[0], Split(s[1..][..k - 1]), Split(s[k + 1..]));
      }
    }
  }

  /** Splitting at a slash splits both sides independently. */
  lemma SplitAround(a: string, b: string)
    ensures Split(a + [Slash] + b) == Split(a) + Split(b)
  {
    var s := a + [Slash] + b;
    SplitAt(s, |a|);
    assert s[..|a|] == a;
    assert s[|a| + 1..] == b;
  }

  /** A slash-free string is a single piece. */
  lemma {:induction false} SplitNoSlash(s: string)
    requires Slash !in s
    ensures Split(s) == [s]
    decreases |s|
  {
    if |s| > 0 {
      SplitNoSlash(s[1..]);
      assert [s[0]] + s[1..] == s;
    }
  }

  /** Rejoining the raw pieces gives back the string. */
  lemma {:induction false} JoinSplit(s: string)
    ensures Join(Split(s)) == s
    decreases |s|
  {
    if |s| > 0 {
      JoinSplit(s[1..]);
      var rest := Split(s[1..]);
      if s[0] == Slash {
        assert Join([""] + rest) == "" + [Slash] + Join(rest);
      } else if |rest| == 1 {
        assert Join([[s[0]] + rest[0]]) == [s[0]] + rest[0];
      } else {
        var parts := [[s[0]] + rest[0]] + rest[1..];
        assert parts[1..] == rest[1..];
        assert Join(parts) == ([s[0]] + rest[0]) + [Slash] + Join(rest[1..]);
        assert Join(rest) == rest[0] + [Slash] + Join(rest[1..]);
      }
      assert [s[0]] + s[1..] == s;
    }
  }

  /** Splitting a join of slash-free pieces gives back the pieces. */
  lemma {:induction false} SplitJoin(parts: seq<string>)
    requires |parts| >= 1
    requires forall i :: 0 <= i < |parts| ==> Slash !in parts[i]
    ensures Split(Join(parts)) == parts
    decreases |parts|
  {
    if |parts| == 1 {
      SplitNoSlash(parts[0]);
    } else {
      SplitJoin(parts[1..]);
      SplitNoSlash(parts[0]);
      SplitAround(parts[0], Join(parts[1..]));
      assert [parts[0]] + parts[1..] == parts;
    }
  }

  // ----- DropEmpty -----

  /** The filter only keeps pieces it was given. */
  lemma {:induction false} DropEmptyKeepsPieces(parts: seq<string>)
    ensures forall i :: 0 <= i < |DropEmpty(parts)| ==> DropEmpty(parts)[i] in parts
    decreases |parts|
  {
    if |parts| > 0 {
      DropEmptyKeepsPieces(parts[1..]);
      assert forall x :: x in parts[1..] ==> x in parts;
    }
  }

  /** The filter distributes over concatenation. */
  lemma {:induction false} DropEmptyAppend(a: seq<string>, b: seq<string>)
    ensures DropEmpty(a + b) == DropEmpty(a) + DropEmpty(b)
    decreases |a|
  {
    if |a| == 0 {
      assert a + b == b;
    } else {
      assert (a + b)[0] == a[0];
      assert (a + b)[1..] == a[1..] + b;
      DropEmptyAppend(a[1..], b);
    }
  }

  /** A list with no empty element passes the filter unchanged. */
  lemma {:induction false} DropEmptyKeepsNonEmpty(parts: seq<string>)
    requires forall i :: 0 <= i < |parts| ==> parts[i] != ""
    ensures DropEmpty(parts) == parts
    decreases |parts|
  {
    if |parts| > 0 {
      DropEmptyKeepsNonEmpty(parts[1..]);
      assert [parts[0]] + parts[1..] == parts;
    }
  }

  /** Dropping empty strings does not change the characters laid end to end. */
  lemma {:induction false} ConcatDropEmpty(parts: seq<string>)
    ensures Concat(DropEmpty(parts)) == Concat(parts)
    decreases |parts|
  {
    if |parts| > 0 {
      ConcatDropEmpty(parts[1..]);
      if parts[0] != "" {
        assert ([parts[0]] + DropEmpty(parts[1..]))[1..] == DropEmpty(parts[1..]);
      }
    }
  }

  /** The raw pieces laid end to end are the string without its slashes. */
  lemma {:induction false} ConcatSplit(s: string)
    ensures Concat(Split(s)) == WithoutSlashes(s)
    decreases |s|
  {
    if |s| > 0 {
      ConcatSplit(s[1..]);
      var rest := Split(s[1..]);
      if s[0] == Slash {
        assert ([""] + rest)[1..] == rest;
      } else {
        var parts := [[s[0]] + rest[0]] + rest[1..];
        assert parts[1..] == rest[1..];
        assert Concat(rest) == rest[0] + Concat(rest[1..]);
        assert Concat(parts) == ([s[0]] + rest[0]) + Concat(rest[1..]);
      }
    }
  }

  // ----- SplitPaths -----

  /** The empty path and the root have no segments. */
  lemma EmptyAndRootHaveNoSegments()
    ensures SplitPaths("") == []
    ensures SplitPaths("/") == []
  {
    SplitAround("", "");
    assert "" + [Slash] + "" == "/";
  }

  /** Splitting at a slash concatenates the segments of both sides. */
  lemma SplitPathsAround(a: string, b: string)
    ensures SplitPaths(a + [Slash] + b) == SplitPaths(a) + SplitPaths(b)
  {
    SplitAround(a, b);
    DropEmptyAppend(Split(a), Split(b));
  }

  /** The segments, laid end to end, are the path without its slashes: same characters, same order. */
  lemma SegmentsInOrder(path: string)
    ensures Concat(SplitPaths(path)) == WithoutSlashes(path)
  {
    ConcatDropEmpty(Split(path));
    ConcatSplit(path);
  }

  /** A leading slash does not change the segments. */
  lemma LeadingSlashIgnored(path: string)
    ensures SplitPaths([Slash] + path) == SplitPaths(path)
  {
    SplitPathsAround("", path);
    EmptyAndRootHaveNoSegments();
    assert "" + [Slash] + path == [Slash] + path;
  }

  /** A trailing slash does not change the segments. */
  lemma TrailingSlashIgnored(path: string)
    ensures SplitPaths(path + [Slash]) == SplitPaths(path)
  {
    SplitPathsAround(path, "");
    EmptyAndRootHaveNoSegments();
    assert path + [Slash] + "" == path + [Slash];
  }

  /** A doubled slash splits like a single one. */
  lemma RepeatedSlashIgnored(a: string, b: string)
    ensures SplitPaths(a + [Slash, Slash] + b) == SplitPaths(a + [Slash] + b)
  {
    assert a + [Slash, Slash] + b == a + [Slash] + ([Slash] + b);
    SplitPathsAround(a, [Slash] + b);
    LeadingSlashIgnored(b);
    SplitPathsAround(a, b);
  }

  /** The shape of the worked example `"/a//b/"`, which splits to `["a", "b"]`. */
  lemma SplitPathsExample(a: string, b: string)
    requires a != "" && Slash !in a
    requires b != "" && Slash !in b
    ensures SplitPaths([Slash] + a + [Slash, Slash] + b + [Slash]) == [a, b]
  {
    var inner := a + [Slash, Slash] + b;
    assert [Slash] + a + [Slash, Slash] + b + [Slash] == [Slash] + (inner + [Slash]);
    LeadingSlashIgnored(inner + [Slash]);
    TrailingSlashIgnored(inner);
    RepeatedSlashIgnored(a, b);
    AppendSegment(a, b);
    SplitNoSlash(a);
    assert SplitPaths(a) == DropEmpty([a]);
    assert DropEmpty([a]) == [a] + DropEmpty([]);
  }

  /** A canonical absolute path is rebuilt exactly from its segments. */
  lemma RebuildCanonical(path: string)
    requires IsCanonicalAbsolute(path)
    ensures [Slash] + Join(SplitPaths(path)) == path
  {
    assert path == "" + [Slash] + path[1..];
    SplitAround("", path[1..]);
    DropEmptyAppend(Split(""), Split(path[1..]));
    DropEmptyKeepsNonEmpty(Split(path[1..]));
    JoinSplit(path[1..]);
  }

  /** Splitting the rejoined segments gives the same segments. */
  lemma SplitPathsIdempotent(path: string)
    ensures SplitPaths(Join(SplitPaths(path))) == SplitPaths(path)
  {
    var segments := SplitPaths(path);
    if |segments| == 0 {
      EmptyAndRootHaveNoSegments();
    } else {
      SplitJoin(segments);
      DropEmptyKeepsNonEmpty(segments);
    }
  }

  /** Appending a plain name to a path adds exactly that segment. */
  lemma AppendSegment(path: string, name: string)
    requires name != "" && Slash !in name
    ensures SplitPaths(path + [Slash] + name) == SplitPaths(path) + [name]
  {
    SplitPathsAround(path, name);
    SplitNoSlash(name);
  }
}
