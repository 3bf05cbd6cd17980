/** Span paths of an agent run: splitting, canonical form, ancestor chain, node identities. */
module SpanPath {
  import opened Common

  const SEPARATOR: char := '/'

  /** The step names of a path, outermost first. */
  type Path = seq<string>

  /** Step names that can stand in a path: not empty and without the separator. */
  predicate WellFormed(p: Path)
  {
    forall i | 0 <= i < |p| :: p[i] != "" && SEPARATOR !in p[i]
  }

  /** Go's `strings.Split(path, "/")`: every piece between separators, empty ones included. */
  function Split(s: string): (parts: seq<string>)
    ensures |parts| >= 1
  {
    if s == "" then [""]
    else
      var rest := Split(s[1..]);
      if s[0] == SEPARATOR then [""] + rest else [[s[0]] + rest[0]] + rest[1..]
  }

  /** Go's `strings.Join(parts, "/")`. */
  function Join(parts: seq<string>): string
  {
    if |parts| == 0 then ""
    else if |parts| == 1 then parts[0]
    else parts[0] + [SEPARATOR] + Join(parts[1..])
  }

  function NonEmpty(parts: seq<string>): (kept: seq<string>)
  {
    if parts == [] then []
    else
      var last := parts[|parts| - 1];
      NonEmpty(parts[..|parts| - 1]) + (if last == "" then [] else [last])
  }

  /** The step names a raw path denotes. */
  function Segments(path: string): (p: Path)
  {
    NonEmpty(Split(path))
  }

  function CanonicalPath(path: string): string
  {
    Join(Segments(path))
  }

  /** The text hashed into an interior node's identity. */
  function SpanName(traceId: string, canonicalPath: string): string
  {
    NulJoin(traceId, canonicalPath)
  }

  /** `SplitPath`: the loop that drops the empty pieces. */
  method SplitPath(path: string) returns (segments: Path)
    ensures segments == Segments(path)
    ensures WellFormed(segments)
  {
    SegmentsWellFormed(path);
    if path == "" {
      return [];
    }
    var raw := Split(path);
    segments := [];
    for i := 0 to |raw|
      invariant segments == NonEmpty(raw[..i])
    {
      assert raw[..i + 1][..i] == raw[..i];
      if raw[i] != "" {
        segments := segments + [raw[i]];
      }
    }
    assert raw[..|raw|] == raw;
  }

  /** `AncestorPaths`: the canonical prefixes of a path, outermost first. */
  method AncestorPaths(canonicalPath: string) returns (prefixes: seq<string>)
    ensures |prefixes| == |Segments(canonicalPath)|
    ensures forall i | 0 <= i < |prefixes| :: prefixes[i] == Join(Segments(canonicalPath)[..i + 1])
    ensures forall i | 0 <= i < |prefixes| :: Segments(prefixes[i]) == Segments(canonicalPath)[..i + 1]
    ensures prefixes != [] ==> prefixes[|prefixes| - 1] == CanonicalPath(canonicalPath)
  {
    var segments := SplitPath(canonicalPath);
    prefixes := [];
    for i := 0 to |segments|
      invariant |prefixes| == i
      invariant forall k | 0 <= k < i :: prefixes[k] == Join(segments[..k + 1])
    {
      prefixes := prefixes + [Join(segments[..i + 1])];
    }
    forall i | 0 <= i < |prefixes| ensures Segments(prefixes[i]) == segments[..i + 1] {
      SegmentsOfJoin(segments[..i + 1]);
    }
    assert segments[..|segments|] == segments;
  }

  // ---- Splitting and joining undo each other ----

  lemma {:induction false} JoinPrepend(c: char, rest: seq<string>)
    requires |rest| >= 1
    ensures Join([""] + rest) == [SEPARATOR] + Join(rest)
    ensures Join([[c] + rest[0]] + rest[1..]) == [c] + Join(rest)
  {
    assert ([""] + rest)[1..] == rest;
    assert ([[c] + rest[0]] + rest[1..])[1..] == rest[1..];
    if |rest| > 1 {
      assert ([c] + rest[0]) + [SEPARATOR] + Join(rest[1..]) == [c] + (rest[0] + [SEPARATOR] + Join(rest[1..]));
    }
  }

  lemma {:induction false} SplitParts(s: string)
    ensures forall i | 0 <= i < |Split(s)| :: SEPARATOR !in Split(s)[i]
    ensures Join(Split(s)) == s
  {
    if s != "" {
      SplitParts(s[1..]);
      JoinPrepend(s[0], Split(s[1..]));
      assert s == [s[0]] + s[1..];
    }
  }

  lemma {:induction false} SplitPrefix(a: string, t: string)
    requires SEPARATOR !in a
    ensures Split(a) == [a]
    ensures Split(a + [SEPARATOR] + t) == [a] + Split(t)
  {
    if a == "" {
      assert (a + [SEPARATOR] + t)[1..] == t;
    } else {
      SplitPrefix(a[1..], t);
      assert (a + [SEPARATOR] + t)[1..] == a[1..] + [SEPARATOR] + t;
      assert [a[0]] + a[1..] == a;
      assert ([a[1..]] + Split(t))[1..] == Split(t);
    }
  }

  lemma {:induction false} SplitOfJoin(parts: seq<string>)
    requires |parts| >= 1
    requires forall i | 0 <= i < |parts| :: SEPARATOR !in parts[i]
    ensures Split(Join(parts)) == parts
  {
    if |parts| == 1 {
      SplitPrefix(parts[0], "");
    } else {
      SplitOfJoin(parts[1..]);
      SplitPrefix(parts[0], Join(parts[1..]));
      assert parts == [parts[0]] + parts[1..];
    }
  }

  lemma {:induction false} NonEmptyKeeps(parts: seq<string>)
    ensures forall x :: x in NonEmpty(parts) <==> x in parts && x != ""
    ensures "" !in parts ==> NonEmpty(parts) == parts
  {
    if parts != [] {
      var n := |parts| - 1;
      assert parts == parts[..n] + [parts[n]];
      NonEmptyKeeps(parts[..n]);
    }
  }

  lemma {:induction false} SegmentsWellFormed(path: string)
    ensures WellFormed(Segments(path))
    ensures path == "" ==> Segments(path) == []
  {
    SplitParts(path);
    NonEmptyKeeps(Split(path));
    forall i | 0 <= i < |Segments(path)|
      ensures Segments(path)[i] != "" && SEPARATOR !in Segments(path)[i]
    {
      assert Segments(path)[i] in Split(path);
    }
  }

  // ---- The step names of a path, piece by piece ----

  lemma {:induction false} FirstSeparator(a: string) returns (i: nat)
    requires SEPARATOR in a
    ensures i < |a| && a[i] == SEPARATOR && SEPARATOR !in a[..i]
  {
    if a[0] == SEPARATOR {
      i := 0;
    } else {
      i := FirstSeparator(a[1..]);
      i := i + 1;
      assert a[..i] == [a[0]] + a[1..][..i - 1];
    }
  }

  lemma {:induction false} SplitAtSeparator(a: string, b: string)
    ensures Split(a + "/" + b) == Split(a) + Split(b)
    decreases |a|
  {
    hide Split;
    if '/' in a {
      var i := FirstSeparator(a);
      var name, rest := a[..i], a[i + 1..];
      assert a == name + [SEPARATOR] + rest;
      assert a + "/" + b == name + [SEPARATOR] + (rest + "/" + b);
      SplitPrefix(name, rest);
      SplitPrefix(name, rest + "/" + b);
      SplitAtSeparator(rest, b);
    } else {
      assert a + "/" + b == a + [SEPARATOR] + b;
      SplitPrefix(a, b);
    }
  }

  lemma {:induction false} NonEmptyConcat(a: seq<string>, b: seq<string>)
    ensures NonEmpty(a + b) == NonEmpty(a) + NonEmpty(b)
  {
    if b == [] {
      assert a + b == a;
    } else {
      var n := |b| - 1;
      NonEmptyConcat(a, b[..n]);
      assert (a + b)[..|a + b| - 1] == a + b[..n];
    }
  }

  /** The step names of a path are those before any separator, then those after it. */
  lemma {:induction false} SegmentsAtSeparator(a: string, b: string)
    ensures Segments(a + "/" + b) == Segments(a) + Segments(b)
  {
    SplitAtSeparator(a, b);
    NonEmptyConcat(Split(a), Split(b));
  }

  /** A text without a separator is one step name, or none when it is empty. */
  lemma {:induction false} SegmentsOfName(s: string)
    requires '/' !in s
    ensures Segments(s) == if s == "" then [] else [s]
  {
    SplitPrefix(s, "");
    NonEmptyKeeps([s]);
    if s == "" { SegmentsWellFormed(s); }
  }

  /** A path has no step names exactly when it is nothing but separators. */
  lemma {:induction false} NoSegmentsIff(path: string)
    ensures Segments(path) == [] <==> forall i | 0 <= i < |path| :: path[i] == '/'
  {
    if i :| 0 <= i < |path| && path[i] == '/' {
      var a, b := path[..i], path[i + 1..];
      assert path == a + "/" + b;
      NoSegmentsIff(a);
      NoSegmentsIff(b);
      SegmentsAtSeparator(a, b);
      assert forall j | 0 <= j < |path| :: path[j] == if j < i then a[j] else if j == i then '/' else b[j - i - 1];
      assert forall j | 0 <= j < |a| :: a[j] == path[j];
      assert forall j | 0 <= j < |b| :: b[j] == path[j + i + 1];
    } else {
      SegmentsOfName(path);
      if path != "" { assert path[0] != '/'; }
    }
  }

  /** Joining puts single separators between the names and nothing else. */
  lemma {:induction false} JoinConcat(p: Path, q: Path)
    ensures Join([]) == "" && (|p| == 1 ==> Join(p) == p[0])
    ensures p != [] && q != [] ==> Join(p + q) == Join(p) + "/" + Join(q)
  {
    if p != [] && q != [] {
      assert (p + q)[1..] == p[1..] + q;
      if |p| > 1 {
        JoinConcat(p[1..], q);
        assert p[0] + "/" + (Join(p[1..]) + "/" + Join(q)) == (p[0] + "/" + Join(p[1..])) + "/" + Join(q);
      } else {
        assert p[1..] + q == q;
      }
    }
  }

  /** The text hashed for a node reads back as its run and its path. */
  lemma {:induction false} SpanNameReadsBack(traceId: string, canonicalPath: string)
    requires '\0' !in traceId
    ensures CutAtNul(SpanName(traceId, canonicalPath)) == Some((traceId, canonicalPath))
  {
    CutUndoesNulJoin(traceId, canonicalPath);
  }

  // ---- Splitting a join, and identities ----

  /** Splitting a join of well-formed step names gives the names back. */
  lemma {:induction false} SegmentsOfJoin(p: Path)
    requires WellFormed(p)
    ensures Segments(Join(p)) == p
  {
    if p == [] {
      SegmentsWellFormed("");
    } else {
      SplitOfJoin(p);
      NonEmptyKeeps(p);
    }
  }

  /** Different step lists have different joined texts. */
  lemma {:induction false} JoinInjective(p: Path, q: Path)
    requires WellFormed(p) && WellFormed(q)
    ensures Join(p) == Join(q) <==> p == q
  {
    SegmentsOfJoin(p);
    SegmentsOfJoin(q);
  }

  /** Canonical form is stable, keeps the step names, and identifies exactly the paths
      with the same step names. */
  lemma {:induction false} CanonicalIdempotent(path: string, other: string)
    ensures Segments(CanonicalPath(path)) == Segments(path)
    ensures CanonicalPath(CanonicalPath(path)) == CanonicalPath(path)
    ensures CanonicalPath(path) == CanonicalPath(other) <==> Segments(path) == Segments(other)
  {
    SegmentsWellFormed(path);
    SegmentsWellFormed(other);
    SegmentsOfJoin(Segments(path));
    JoinInjective(Segments(path), Segments(other));
  }

  /** Node identities within runs: equal span names mean the same run and the same steps,
      for trace ids without NUL. */
  lemma {:induction false} SpanNameIdentifies(t1: string, p1: Path, t2: string, p2: Path)
    requires '\0' !in t1 && '\0' !in t2
    requires WellFormed(p1) && WellFormed(p2)
    ensures SpanName(t1, Join(p1)) == SpanName(t2, Join(p2)) <==> t1 == t2 && p1 == p2
  {
    if SpanName(t1, Join(p1)) == SpanName(t2, Join(p2)) {
      NulJoinInjective(t1, Join(p1), t2, Join(p2));
      JoinInjective(p1, p2);
    }
  }

  /** With a NUL in the trace id two different runs can share a span name. */
  lemma {:induction false} SpanNameCollides()
    ensures SpanName("a" + ['\0'] + "b", "c") == SpanName("a", "b" + ['\0'] + "c")
  {
    assert ("a" + ['\0'] + "b") + ['\0'] + "c" == "a" + ['\0'] + ("b" + ['\0'] + "c");
  }
}
