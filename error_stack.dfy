/** The error-object side: the per-isolate private key, the hidden slot of an error,
    `AttachStackGetter`, `AttachStack`, `ChainStack` and the `stack` getter. */
module ErrorStack {
  import opened CStrings
  import opened Frames
  import opened TraceRender

  /** The private symbol under which the trace tree is stored; only identity matters. */
  class PrivateKey {
    constructor ()
    {
    }
  }

  /** The per-isolate holder behind `GetPrivateStackSymbol`: empty until the first call. */
  class Isolate {
    var stackSymbol: Option<PrivateKey>

    constructor ()
      ensures stackSymbol == None
    {
      stackSymbol := None;
    }

    /** Creates the key on the first call and returns the stored one on every later call. */
    method GetPrivateStackSymbol() returns (key: PrivateKey)
      modifies this
      ensures stackSymbol == Some(key)
      ensures old(stackSymbol).Some? ==> key == old(stackSymbol).value
      ensures old(stackSymbol).None? ==> fresh(key)
    {
      match stackSymbol
      case Some(handle) =>
        key := handle;
      case None =>
        key := new PrivateKey();
        stackSymbol := Some(key);
    }
  }

  /** What a plain `stack` data property can hold, as far as `ChainStack` tells apart. */
  datatype JsValue = Undefined | Str(s: string) | OtherValue

  /** The `stack` property: a plain data property, or the accessor this code installs. */
  datatype StackProperty = DataProperty(value: JsValue) | Accessor

  /** An error object. Its constructor name, its message (after string conversion) and the
      stack trace the engine captured when it was created are fixed; this code changes only
      the `stack` property and the private slots. */
  class ErrorObject {
    const constructorName: string
    const message: string
    const nativeTrace: Option<FrameSeq>
    var stack: StackProperty
    var privates: map<PrivateKey, TraceNode>

    constructor (constructorName: string, message: string, nativeTrace: Option<FrameSeq>, stack: JsValue)
      ensures this.constructorName == constructorName && this.message == message
      ensures this.nativeTrace == nativeTrace
      ensures this.stack == DataProperty(stack) && privates == map[]
    {
      this.constructorName := constructorName;
      this.message := message;
      this.nativeTrace := nativeTrace;
      this.stack := DataProperty(stack);
      this.privates := map[];
    }
  }

  /** The hidden slot of `error` as seen through the isolate's key: absent while either
      the key or the entry is missing. */
  function Slot(iso: Isolate, error: ErrorObject): Option<TraceNode>
    reads iso, error
  {
    match iso.stackSymbol
    case None => None
    case Some(k) => if k in error.privates then Some(error.privates[k]) else None
  }

  /** An installed `stack` accessor always has a slot to render. */
  ghost predicate Consistent(iso: Isolate, error: ErrorObject)
    reads iso, error
  {
    error.stack.Accessor? ==> Slot(iso, error).Some?
  }

  /** The text the `stack` accessor produces for a slot holding `node`. */
  function StackText(constructorName: string, message: string, node: TraceNode): string
  {
    constructorName + ": " + message + Render(node)
  }

  /** The slot value `ChainStack` leaves behind, given the slot before the call, the engine's
      own trace of the error, the `stack` property before the call and the new capture. */
  function ChainedSlot(existing: Option<TraceNode>, nativeTrace: Option<FrameSeq>,
                       stack: StackProperty, capture: FrameSeq): TraceNode
  {
    match existing
    case Some(d) => Pair(Snapshot(capture), d)
    case None =>
      match nativeTrace
      case Some(t) => Pair(Snapshot(capture), Snapshot(t))
      case None =>
        match stack
        case DataProperty(Str(s)) => Pair(Snapshot(capture), Text(s))
        case _ => Snapshot(capture)
  }

  // ---- Operations on an error object ----

  /** `AttachStackGetter`: stores `data` in the hidden slot and installs the `stack` accessor. */
  method AttachStackGetter(iso: Isolate, error: ErrorObject, data: TraceNode)
    modifies iso, error
    ensures iso.stackSymbol.Some?
    ensures old(iso.stackSymbol).Some? ==> iso.stackSymbol == old(iso.stackSymbol)
    ensures old(iso.stackSymbol).None? ==> fresh(iso.stackSymbol.value)
    ensures error.privates == old(error.privates)[iso.stackSymbol.value := data]
    ensures error.stack == Accessor
    ensures Slot(iso, error) == Some(data) && Consistent(iso, error)
  {
    var key := iso.GetPrivateStackSymbol();
    error.privates := error.privates[key := data];
    error.stack := Accessor;
  }

  /** `StackTraceHolder::AttachStack`: the slot becomes the new capture alone. */
  method AttachStack(iso: Isolate, error: ErrorObject, capture: FrameSeq)
    modifies iso, error
    ensures iso.stackSymbol.Some?
    ensures old(iso.stackSymbol).Some? ==> iso.stackSymbol == old(iso.stackSymbol)
    ensures old(iso.stackSymbol).None? ==> fresh(iso.stackSymbol.value)
    ensures error.privates == old(error.privates)[iso.stackSymbol.value := Snapshot(capture)]
    ensures error.stack == Accessor
    ensures Slot(iso, error) == Some(Snapshot(capture)) && Consistent(iso, error)
  {
    AttachStackGetter(iso, error, Snapshot(capture));
  }

  /** Each isolate has its own key: attaching a capture through one isolate leaves the slot
      another isolate keeps on the same error as it was. */
  method AttachLeavesOtherIsolate(iso: Isolate, other: Isolate, error: ErrorObject, capture: FrameSeq)
    requires iso != other
    requires iso.stackSymbol.None? || iso.stackSymbol != other.stackSymbol
    modifies iso, error
    ensures Slot(other, error) == old(Slot(other, error))
    ensures Slot(iso, error) == Some(Snapshot(capture))
  {
    AttachStack(iso, error, capture);
  }

  /** `StackTraceHolder::ChainStack`: pairs the new capture with whatever trace the error
      already had (its slot, else the engine's trace, else a string `stack` property), or
      attaches the capture alone when there is none. Nothing already in the slot is changed. */
  method ChainStack(iso: Isolate, error: ErrorObject, capture: FrameSeq)
    modifies iso, error
    ensures iso.stackSymbol.Some?
    ensures old(iso.stackSymbol).Some? ==> iso.stackSymbol == old(iso.stackSymbol)
    ensures old(iso.stackSymbol).None? ==> fresh(iso.stackSymbol.value)
    ensures error.privates == old(error.privates)[iso.stackSymbol.value :=
      ChainedSlot(old(Slot(iso, error)), error.nativeTrace, old(error.stack), capture)]
    ensures error.stack == Accessor
    ensures Slot(iso, error) == Some(ChainedSlot(old(Slot(iso, error)), error.nativeTrace, old(error.stack), capture))
    ensures Consistent(iso, error)
  {
    var key := iso.GetPrivateStackSymbol();
    var existingData: TraceNode;
    if key !in error.privates {
      match error.nativeTrace
      case Some(existingStack) =>
        existingData := Snapshot(existingStack);
      case None =>
        match error.stack
        case DataProperty(Str(s)) =>
          existingData := Text(s);
        case _ =>
          AttachStack(iso, error, capture);
          return;
    } else {
      existingData := error.privates[key];
    }
    AttachStackGetter(iso, error, Pair(Snapshot(capture), existingData));
  }

  /** `ErrorStackGetter`: what reading `stack` returns once the accessor is installed. */
  method ErrorStackGetter(iso: Isolate, error: ErrorObject) returns (text: string)
    requires error.stack.Accessor? && Consistent(iso, error)
    modifies iso
    ensures iso.stackSymbol == old(iso.stackSymbol)
    ensures text == StackText(error.constructorName, error.message, Slot(iso, error).value)
  {
    var key := iso.GetPrivateStackSymbol();
    text := error.constructorName + ": " + error.message + Render(error.privates[key]);
  }

  // ---- Properties of the slot state machine ----

  /** Chaining onto a filled slot keeps the old tree as the older half, adds exactly one
      pair, and puts the new capture's leaf after all the old leaves in the rendering. */
  lemma ChainOntoExisting(d: TraceNode, nativeTrace: Option<FrameSeq>, stack: StackProperty, capture: FrameSeq)
    ensures var r := ChainedSlot(Some(d), nativeTrace, stack, capture);
      r.Pair? && r.older == d &&
      PairCount(r) == PairCount(d) + 1 &&
      Leaves(r) == Leaves(d) + [Snapshot(capture)] &&
      Render(r) == Render(d) + BoundaryMarker + FramesText(capture)
  {
    SnapshotRendersAllFrames(capture);
  }

  /** With an empty slot, chaining prefers the engine's trace, then a string `stack`
      property, and otherwise attaches the capture alone. */
  lemma ChainOntoEmpty(nativeTrace: Option<FrameSeq>, stack: StackProperty, capture: FrameSeq)
    ensures var r := ChainedSlot(None, nativeTrace, stack, capture);
      (nativeTrace.Some? ==> r == Pair(Snapshot(capture), Snapshot(nativeTrace.value))) &&
      (nativeTrace.None? && stack.DataProperty? && stack.value.Str? ==>
         r == Pair(Snapshot(capture), Text(stack.value.s))) &&
      (nativeTrace.None? && !(stack.DataProperty? && stack.value.Str?) ==> r == Snapshot(capture))
  {
  }

  /** The slot after `ChainStack` is called once per capture, in order, starting from
      `existing`; the first call sees `stack`, later ones the installed accessor. */
  function ChainAll(existing: Option<TraceNode>, nativeTrace: Option<FrameSeq>,
                    stack: StackProperty, captures: seq<FrameSeq>): (r: Option<TraceNode>)
    ensures captures != [] ==> r.Some?
  {
    if captures == [] then existing
    else
      var n := |captures|;
      Some(ChainedSlot(ChainAll(existing, nativeTrace, stack, captures[..n - 1]), nativeTrace,
                       if n == 1 then stack else Accessor, captures[n - 1]))
  }

  /** One snapshot leaf per capture, in capture order. */
  function Snapshots(captures: seq<FrameSeq>): (r: seq<TraceNode>)
    ensures |r| == |captures|
  {
    seq(|captures|, i requires 0 <= i < |captures| => Snapshot(captures[i]))
  }

  /** Chaining a run of captures onto a filled slot: one pair per call, and the new
      captures' leaves follow the old ones in call order. */
  lemma {:induction false} ChainAllOntoExisting(d: TraceNode, nativeTrace: Option<FrameSeq>,
                                                 stack: StackProperty, captures: seq<FrameSeq>)
    ensures var r := ChainAll(Some(d), nativeTrace, stack, captures).value;
      PairCount(r) == PairCount(d) + |captures| &&
      Leaves(r) == Leaves(d) + Snapshots(captures)
  {
    if captures != [] {
      var n := |captures|;
      ChainAllOntoExisting(d, nativeTrace, stack, captures[..n - 1]);
      assert Snapshots(captures) == Snapshots(captures[..n - 1]) + [Snapshot(captures[n - 1])];
    } else {
      assert Leaves(d) + Snapshots(captures) == Leaves(d);
    }
  }

  /** The first call on an error that the engine left no trace for and whose `stack` is not a
      string attaches; every later call wraps. So n crossings leave n - 1 pairs, and the
      leaves are the captures in call order. */
  lemma ChainAllOntoUnseen(nativeTrace: Option<FrameSeq>, stack: StackProperty, captures: seq<FrameSeq>)
    requires nativeTrace.None? && !(stack.DataProperty? && stack.value.Str?)
    requires captures != []
    ensures var r := ChainAll(None, nativeTrace, stack, captures).value;
      PairCount(r) == |captures| - 1 && Leaves(r) == Snapshots(captures)
  {
    var first := Snapshot(captures[0]);
    assert ChainAll(None, nativeTrace, stack, captures[..1]) == Some(first) by {
      assert captures[..1][..0] == [] && captures[..1][0] == captures[0];
    }
    ChainAllFromFirst(None, nativeTrace, stack, captures);
    ChainAllOntoExisting(first, nativeTrace, Accessor, captures[1..]);
    assert Snapshots(captures) == [first] + Snapshots(captures[1..]);
  }

  /** ... and the captures render oldest first, joined by the boundary marker. */
  lemma RenderChainOntoUnseen(nativeTrace: Option<FrameSeq>, stack: StackProperty, captures: seq<FrameSeq>)
    requires nativeTrace.None? && !(stack.DataProperty? && stack.value.Str?)
    requires captures != []
    ensures Render(ChainAll(None, nativeTrace, stack, captures).value) == JoinRendered(Snapshots(captures))
  {
    var r := ChainAll(None, nativeTrace, stack, captures).value;
    ChainAllOntoUnseen(nativeTrace, stack, captures);
    RenderIsJoinedLeaves(r);
  }

  /** After the first call, the remaining calls behave as chaining onto the first result. */
  lemma {:induction false} ChainAllFromFirst(existing: Option<TraceNode>, nativeTrace: Option<FrameSeq>,
                                              stack: StackProperty, captures: seq<FrameSeq>)
    requires captures != []
    ensures ChainAll(existing, nativeTrace, stack, captures)
         == ChainAll(ChainAll(existing, nativeTrace, stack, captures[..1]), nativeTrace, Accessor, captures[1..])
    decreases |captures|
  {
    var n := |captures|;
    if n > 1 {
      ChainAllFromFirst(existing, nativeTrace, stack, captures[..n - 1]);
      assert captures[..n - 1][..1] == captures[..1];
      assert captures[1..][..n - 2] == captures[..n - 1][1..];
    } else {
      assert captures[1..] == [];
    }
  }

  /** Three crossings of a fresh error render the first capture, the marker, the second,
      the marker, the third. */
  lemma ThreeCrossings(s1: FrameSeq, s2: FrameSeq, s3: FrameSeq)
    ensures Render(ChainAll(None, None, DataProperty(Undefined), [s1, s2, s3]).value)
         == FramesText(s1) + BoundaryMarker + FramesText(s2) + BoundaryMarker + FramesText(s3)
  {
    RenderChainOntoUnseen(None, DataProperty(Undefined), [s1, s2, s3]);
    var leaves := Snapshots([s1, s2, s3]);
    assert leaves == [Snapshot(s1), Snapshot(s2), Snapshot(s3)];
    assert leaves[..2] == [Snapshot(s1), Snapshot(s2)];
    assert [Snapshot(s1), Snapshot(s2)][..1] == [Snapshot(s1)];
    assert JoinRendered(leaves[..1]) == Render(Snapshot(s1)) by {
      assert leaves[..1] == [Snapshot(s1)];
    }
    assert JoinRendered(leaves[..2]) == Render(Snapshot(s1)) + BoundaryMarker + Render(Snapshot(s2)) by {
      assert leaves[..2][..1] == leaves[..1];
    }
    SnapshotRendersAllFrames(s1);
    SnapshotRendersAllFrames(s2);
    SnapshotRendersAllFrames(s3);
  }

  /** Attaching one capture and then chaining a second gives the same tree as chaining both
      onto an error that has no trace to recover. */
  lemma AttachThenChain(stack: StackProperty, s1: FrameSeq, s2: FrameSeq)
    requires !(stack.DataProperty? && stack.value.Str?)
    ensures ChainedSlot(Some(Snapshot(s1)), None, Accessor, s2)
         == ChainAll(None, None, stack, [s1, s2]).value
  {
    assert [s1, s2][..1] == [s1] && [s1][..0] == [];
    assert ChainAll(None, None, stack, [s1]) == Some(Snapshot(s1));
  }

  // ---- Properties of the `stack` getter ----

  /** A single-crossing read: constructor name `Error`, message `boom` and one named frame
      `f` at `a.js`, line 3, column 7. */
  lemma SingleFrameRead(f: Frame)
    requires f == Frame("a.js", "f", 3, 7, false, 1)
    ensures StackText("Error", "boom", Snapshot([f])) == "Error: boom\n    at f (a.js:3:7)"
  {
    SnapshotRead("Error", "boom", [f]);
    assert FramesText([f]) == FrameLine(f) by {
      FramesTextCons(f, []);
      assert [f] + [] == [f];
    }
    SampleFrameLine(f);
    ReadHeadThenLine(FrameLine(f));
  }

  lemma ReadHeadThenLine(line: string)
    requires line == "\n    at f (a.js:3:7)"
    ensures "Error" + ": " + "boom" + line == "Error: boom\n    at f (a.js:3:7)"
  {
  }

  /** Reading a slot that holds one capture of one named, non-eval frame. */
  lemma NamedFrameRead(name: string, message: string, f: Frame)
    requires !f.isEval && |f.functionName| > 0
    ensures StackText(name, message, Snapshot([f]))
         == name + ": " + message + AtPrefix + CStr(f.functionName) + " (" + Location(f) + ")"
  {
    FramesTextCons(f, []);
    assert [f] + [] == [f];
    SnapshotRead(name, message, [f]);
  }

  /** Reading a slot that holds one capture: the frames' text follows `<name>: <message>`. */
  lemma SnapshotRead(name: string, message: string, fs: FrameSeq)
    ensures StackText(name, message, Snapshot(fs)) == name + ": " + message + FramesText(fs)
  {
    SnapshotRendersAllFrames(fs);
  }

  /** A flattened `stack` string of the usual shape (`<name>: <message>` on the first line,
      continuation lines after it) reads back unchanged through the getter: the first line
      that the text leaf drops is exactly what the getter puts back. */
  lemma FlattenedStackReadsBack(name: string, message: string, rest: string)
    requires |name| > 0 && name[0] != ' '
    requires '\n' !in name + ": " + message
    requires '\0' !in name + ": " + message + rest
    requires rest == "" || rest[0] == '\n'
    ensures StackText(name, message, Text(name + ": " + message + rest)) == name + ": " + message + rest
  {
    var head := name + ": " + message;
    var s := head + rest;
    CStrOfNulFree(s);
    IndentedCStr(s);
    assert s[0] == name[0];
    if rest == "" {
      assert s == head;
    } else {
      assert s[|head|] == '\n';
      assert s[..|head|] == head;
      assert FirstIndex(s, '\n') == Some(|head|);
      assert s[|head|..] == rest;
    }
  }

  /** An error whose trace was flattened into its `stack` string and which then crosses a
      boundary reads as the old `stack` text, the marker, and the new capture. */
  lemma FlattenedThenChained(name: string, message: string, rest: string, capture: FrameSeq)
    requires |name| > 0 && name[0] != ' '
    requires '\n' !in name + ": " + message
    requires '\0' !in name + ": " + message + rest
    requires rest == "" || rest[0] == '\n'
    ensures var flat := name + ": " + message + rest;
      StackText(name, message, ChainedSlot(None, None, DataProperty(Str(flat)), capture))
        == flat + BoundaryMarker + FramesText(capture)
  {
    var flat := name + ": " + message + rest;
    assert ChainedSlot(None, None, DataProperty(Str(flat)), capture) == Pair(Snapshot(capture), Text(flat));
    PairRead(name, message, Snapshot(capture), Text(flat));
    FlattenedStackReadsBack(name, message, rest);
    SnapshotRendersAllFrames(capture);
  }

  /** Reading a pair: what reading its older half alone would give, the marker, then its
      newer half. */
  lemma PairRead(name: string, message: string, newer: TraceNode, older: TraceNode)
    ensures StackText(name, message, Pair(newer, older))
         == StackText(name, message, older) + BoundaryMarker + Render(newer)
  {
    var head, o, n := name + ": " + message, Render(older), Render(newer);
    assert StackText(name, message, Pair(newer, older)) == head + (o + BoundaryMarker + n);
    assert StackText(name, message, older) == head + o;
  }
}
