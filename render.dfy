/** The trace tree kept in an error's hidden slot and `RenderErrorStack`, which turns it into
    the continuation lines of the error's `stack` text. */
module TraceRender {
  import opened CStrings
  import opened Frames

  /** The value stored in the hidden slot: a plain string, a captured stack (a
      `StackTraceHolder`), or a two-element array whose index 0 is the newly captured
      stack and whose index 1 is the data that was there before. */
  datatype TraceNode =
    | Text(text: string)
    | Snapshot(frames: FrameSeq)
    | Pair(newer: TraceNode, older: TraceNode)

  /** Written between the two halves of a pair. */
  const BoundaryMarker: string := "\n    at (<isolated-vm boundary>)"

  /** The C-level test on the first four characters; the `&&` stops at the terminator,
      so a shorter C string is never indented. */
  predicate Indented(c: string)
  {
    |c| >= 4 && c[0] == ' ' && c[1] == ' ' && c[2] == ' ' && c[3] == ' '
  }

  /** A text leaf: passed through when it starts with four spaces; otherwise its first line
      (the error message) is dropped, keeping everything from the first newline on. */
  function RenderText(s: string): string
  {
    var c := CStr(s);
    if Indented(c) then s
    else match FirstIndex(c, '\n')
      case None => ""
      case Some(i) => c[i..]
  }

  /** `RenderErrorStack`: a pair renders its older half (index 1), the marker, then its
      newer half (index 0). */
  function Render(node: TraceNode): string
  {
    match node
    case Text(s) => RenderText(s)
    case Snapshot(fs) => CStr(FramesText(fs))
    case Pair(newer, older) => Render(older) + BoundaryMarker + Render(newer)
  }

  // ---- Text leaves ----

  /** The test on the C string view gives the same answer as the test on the whole string:
      a NUL among the first four characters fails it either way. */
  lemma IndentedCStr(s: string)
    ensures Indented(CStr(s)) == Indented(s)
  {
    var c := CStr(s);
    if |c| >= 4 {
      assert c[..4] == s[..4];
    } else if |c| < |s| {
      assert s[|c|] == '\0';
    }
  }

  /** A text leaf whose first four characters are spaces renders to itself. */
  lemma IndentedTextUnchanged(s: string)
    requires Indented(s)
    ensures Render(Text(s)) == s
  {
    IndentedCStr(s);
  }

  /** An unindented text leaf with no newline before its end (or before a NUL) renders to nothing. */
  lemma MessageOnlyTextIsEmpty(s: string)
    requires !Indented(s)
    requires '\n' !in CStr(s)
    ensures Render(Text(s)) == ""
  {
    IndentedCStr(s);
  }

  /** An unindented text leaf with a newline renders to the tail of its C string that starts
      at the first newline: it starts with the newline, and only the first line is dropped. */
  lemma FirstLineDropped(s: string)
    requires !Indented(s)
    requires '\n' in CStr(s)
    ensures var r := Render(Text(s)); var c := CStr(s);
      |r| > 0 && r[0] == '\n' &&
      |r| <= |c| && c[|c| - |r|..] == r &&
      '\n' !in c[..|c| - |r|]
  {
    IndentedCStr(s);
  }

  /** For a string without NUL, the rendered text leaf is a suffix of the string itself. */
  lemma NulFreeTextRendersSuffix(s: string)
    requires '\0' !in s
    ensures var r := Render(Text(s)); |r| <= |s| && s[|s| - |r|..] == r
  {
    CStrOfNulFree(s);
    if !Indented(s) {
      match FirstIndex(s, '\n')
      case None =>
        assert Render(Text(s)) == "";
      case Some(i) =>
        assert Render(Text(s)) == s[i..];
    }
  }

  /** Rendering a text leaf is idempotent: its output, stored again as text, renders to itself. */
  lemma RenderTextIdempotent(s: string)
    ensures RenderText(RenderText(s)) == RenderText(s)
  {
    var c := CStr(s);
    if !Indented(c) {
      match FirstIndex(c, '\n')
      case None =>
      case Some(i) =>
        var r := c[i..];
        assert r[0] == '\n';
        assert '\0' !in r by {
          assert forall k :: 0 <= k < |r| ==> r[k] == c[i + k];
        }
        CStrOfNulFree(r);
        assert !Indented(r);
        assert FirstIndex(r, '\n') == Some(0);
    }
  }

  // ---- Snapshots ----

  /** The C string conversion of a rendered snapshot loses nothing. */
  lemma SnapshotRendersAllFrames(fs: FrameSeq)
    ensures Render(Snapshot(fs)) == FramesText(fs)
  {
    FramesTextNulFree(fs);
    CStrOfNulFree(FramesText(fs));
  }

  // ---- Whole trees ----

  /** The number of boundary crossings recorded in a tree. */
  function PairCount(node: TraceNode): nat
  {
    match node
    case Text(_) => 0
    case Snapshot(_) => 0
    case Pair(newer, older) => PairCount(newer) + PairCount(older) + 1
  }

  /** The leaves of a tree, in the order their text appears in the rendering. */
  function Leaves(node: TraceNode): (r: seq<TraceNode>)
    ensures |r| == PairCount(node) + 1
    ensures forall k :: 0 <= k < |r| ==> !r[k].Pair?
  {
    match node
    case Text(_) => [node]
    case Snapshot(_) => [node]
    case Pair(newer, older) => Leaves(older) + Leaves(newer)
  }

  /** The texts `part` gives to the elements of `xs`, with the boundary marker between
      consecutive ones. */
  function JoinMap<T>(xs: seq<T>, part: T -> string): string
    requires |xs| > 0
  {
    if |xs| == 1 then part(xs[0])
    else JoinMap(xs[..|xs| - 1], part) + BoundaryMarker + part(xs[|xs| - 1])
  }

  lemma {:induction false} JoinMapAppend<T>(a: seq<T>, b: seq<T>, part: T -> string)
    requires |a| > 0 && |b| > 0
    ensures JoinMap(a + b, part) == JoinMap(a, part) + BoundaryMarker + JoinMap(b, part)
    decreases |b|
  {
    var last := b[|b| - 1];
    assert (a + b)[|a + b| - 1] == last;
    if |b| == 1 {
      assert (a + b)[..|a + b| - 1] == a;
      assert JoinMap(b, part) == part(last);
    } else {
      var b' := b[..|b| - 1];
      assert (a + b)[..|a + b| - 1] == a + b';
      JoinMapAppend(a, b', part);
      assert JoinMap(b, part) == JoinMap(b', part) + BoundaryMarker + part(last);
    }
    assert JoinMap(a + b, part) == JoinMap((a + b)[..|a + b| - 1], part) + BoundaryMarker + part(last);
  }

  /** Leaves rendered one by one and joined by the boundary marker. */
  function JoinRendered(leaves: seq<TraceNode>): string
    requires |leaves| > 0
  {
    JoinMap(leaves, Render)
  }

  /** A tree renders to its leaves, in order, with one marker between consecutive leaves:
      a tree of n crossings shows n markers. */
  lemma {:induction false} RenderIsJoinedLeaves(node: TraceNode)
    ensures Render(node) == JoinRendered(Leaves(node))
  {
    match node
    case Text(_) =>
    case Snapshot(_) =>
    case Pair(newer, older) =>
      RenderIsJoinedLeaves(newer);
      RenderIsJoinedLeaves(older);
      JoinMapAppend(Leaves(older), Leaves(newer), Render);
  }

  /** No text leaf of the tree is passed through because of indentation. */
  predicate NoIndentedText(node: TraceNode)
  {
    match node
    case Text(s) => !Indented(CStr(s))
    case Snapshot(_) => true
    case Pair(newer, older) => NoIndentedText(newer) && NoIndentedText(older)
  }

  /** Unless an indented text leaf is passed through, a rendered tree is either empty or a run
      of continuation lines: it starts with a newline. A pair is never empty. */
  lemma {:induction false} RenderStartsWithNewline(node: TraceNode)
    requires NoIndentedText(node)
    ensures Render(node) == "" || Render(node)[0] == '\n'
    ensures node.Pair? ==> Render(node) != ""
  {
    match node
    case Text(s) =>
    case Snapshot(fs) =>
      SnapshotRendersAllFrames(fs);
      FramesTextEmptyIff(fs);
    case Pair(newer, older) =>
      RenderStartsWithNewline(older);
  }
}
