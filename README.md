# Error stack traces across isolate boundaries (isolated-vm `stack_trace.cc`)

This project models how isolated-vm records and renders the `stack` of an error that has
crossed one or more isolate boundaries, and proves properties of that model in Dafny.

- **Trace tree.** An error keeps a trace tree in a hidden (private-symbol) slot. The tree is
  `TraceRender.TraceNode`, with three shapes:
  - `Text`: a plain string, such as a `stack` that a copy across isolates flattened to text.
  - `Snapshot`: a captured native stack (a `StackTraceHolder`).
  - `Pair`: the two-element array. `newer` is index 0, the capture just taken. `older` is
    index 1, the data that was there before.
- **Frame formatting.** `Frames.RenderSingleStack` writes one line per frame, in frame
  order. A frame takes one of four shapes. The eval shape with a script id keeps its
  parenthesis open. It is a loop that appends to a string. It is proved equal to the
  recursive specification `Frames.FramesText`.
- **Rendering.** `TraceRender.Render` is `RenderErrorStack`:
  - A text leaf is passed through if it starts with four spaces. Otherwise its first line
    is dropped.
  - A snapshot renders its frames.
  - A pair renders its older half, then the marker `"\n    at (<isolated-vm boundary>)"`,
    then its newer half.
- **Error objects.** `ErrorStack` holds the error-object side:
  - `Isolate` is the per-isolate holder of the private key. `GetPrivateStackSymbol` creates
    the key once.
  - `ErrorObject` has a `stack` property. Its hidden slots are a map from key to tree.
  - `AttachStackGetter`, `AttachStack` and `ChainStack` overwrite the slot in place.
  - `ErrorStackGetter` is what reading `stack` returns: constructor name, `": "`, message,
    then the rendered slot.
  - `ChainedSlot` is the pure function giving the slot that `ChainStack` leaves behind.
    The lemmas about repeated crossings are stated over it.
- **C strings.** `String::Utf8Value` and `std::string` keep embedded NUL characters; only
  the `char*` consumers stop at the first one: the four-space test on `c_str` and `strchr`
  in a text leaf, `NewFromOneByte` and `NewFromUtf8` with the default length, and
  `ostream << const char*` for script and function names. The model applies
  `CStrings.CStr` (the text before the first NUL) at exactly those points. The test for an
  empty function name uses `Utf8Value::length()`, which counts every byte, NULs included.
- **Integers.** `ostream << int` is `CStrings.IntToString`. Line, column and script id are
  V8's 32-bit `int` (`Frames.int32`). `Message::kNoScriptIdInfo` is V8's value 0.

In `src/isolate/stack_trace.cc:51-57` a pair renders index 1 (the older data), the marker,
then index 0 (the new capture). So the oldest trace, which is the innermost in call order,
comes first. Lemmas `ThreeCrossings` and `RenderChainOntoUnseen` state this order.

## Model

| member | source | states |
|---|---|---|
| CStrings.CStr | src/isolate/stack_trace.cc:33-34 | the C string view of a string is its longest prefix without NUL: a prefix, NUL-free, and cut exactly at the first NUL |
| CStrings.CStrOfNulFree | src/isolate/stack_trace.cc:62 | a string without NUL passes through the C string conversion unchanged |
| CStrings.FirstIndex | src/isolate/stack_trace.cc:40 | `strchr`: absent exactly when the character does not occur; otherwise the position holds it and no earlier position does |
| CStrings.NatToString | src/isolate/stack_trace.cc:150 | the decimal text of a natural is non-empty, all digits, and has no leading zero |
| CStrings.DecimalRoundTrip | src/isolate/stack_trace.cc:150 | reading back the written digits gives the number |
| CStrings.IntToString | src/isolate/stack_trace.cc:150 | `ostream << int`: non-empty, minus sign exactly for negatives, digits otherwise, ends in a digit, no NUL, newline or `)` |
| CStrings.IntRoundTrip | src/isolate/stack_trace.cc:146-147 | the written sign and digits determine the integer: reading back gives the number |
| Frames.RenderSingleStack | src/isolate/stack_trace.cc:139-164 | the loop returns exactly the frames' segments concatenated in frame order (`FramesText`) |
| Frames.FramesTextSnoc | src/isolate/stack_trace.cc:143-162 | rendering one more frame appends exactly that frame's segment |
| Frames.FrameLineWritten | src/isolate/stack_trace.cc:148-161 | each of the four branches of the loop body appends exactly the frame's segment |
| Frames.EvalHidesFunctionName | src/isolate/stack_trace.cc:148-153 | the eval test comes first: an eval frame's segment does not depend on its function name |
| Frames.ClosingParenExactlyForNamedFrames | src/isolate/stack_trace.cc:150-159 | a segment ends in `)` if and only if the frame is non-eval with a non-empty function name; the eval-with-script-id shape stays unclosed |
| Frames.AnonymousFrameIsLocation | src/isolate/stack_trace.cc:156-157 | a non-eval frame with an empty function name is written as the prefix and `script:line:column` |
| Frames.FrameLineNulFree | src/isolate/stack_trace.cc:145-159 | no segment contains NUL |
| Frames.ConcatMapAppend | src/isolate/stack_trace.cc:141-163 | concatenating segments splits along any split of the elements |
| Frames.FramesTextAppend | src/isolate/stack_trace.cc:143-162 | the rendered stack of `a + b` is that of `a` followed by that of `b` |
| Frames.FramesTextCons | src/isolate/stack_trace.cc:143-162 | the first frame's segment comes first, then the rest in order |
| Frames.FramesTextEmptyIff | src/isolate/stack_trace.cc:142-163 | zero frames give `""` and only zero frames do; otherwise the text starts with `"\n    at "` |
| Frames.FramesTextNulFree | src/isolate/stack_trace.cc:62 | the rendered stack contains no NUL, so `NewFromUtf8(..., c_str())` keeps all of it |
| TraceRender.IndentedCStr | src/isolate/stack_trace.cc:36 | the four-space test on the C string agrees with the test on the string; a short or NUL-broken prefix fails it safely |
| TraceRender.IndentedTextUnchanged | src/isolate/stack_trace.cc:36-38 | a text leaf whose first four characters are spaces renders to itself |
| TraceRender.MessageOnlyTextIsEmpty | src/isolate/stack_trace.cc:40-44 | an unindented text leaf with no newline (before any NUL) renders to `""` |
| TraceRender.FirstLineDropped | src/isolate/stack_trace.cc:40-46 | otherwise the result is the tail of the C string from the first newline: it starts with `'\n'`, is a suffix, and no newline precedes it |
| TraceRender.NulFreeTextRendersSuffix | src/isolate/stack_trace.cc:30-46 | for a NUL-free string the rendered text leaf is a suffix of the string |
| TraceRender.RenderTextIdempotent | src/isolate/stack_trace.cc:30-46 | rendering a text leaf is idempotent |
| TraceRender.SnapshotRendersAllFrames | src/isolate/stack_trace.cc:58-63 | a snapshot renders to exactly `FramesText` of its frames; the C string round trip loses nothing |
| TraceRender.Leaves | src/isolate/stack_trace.cc:47-57 | a tree with n pairs has n + 1 leaves, none of them a pair |
| TraceRender.JoinMapAppend | src/isolate/stack_trace.cc:51-57 | joining with the marker splits along any split of the parts, with one marker at the seam |
| TraceRender.RenderIsJoinedLeaves | src/isolate/stack_trace.cc:47-57 | any tree renders to its leaves in order (older before newer at every pair), joined by the marker: n pairs give n markers |
| TraceRender.RenderStartsWithNewline | src/isolate/stack_trace.cc:28-64 | without indented text leaves, a rendering is empty or starts with `'\n'`, and a pair never renders empty |
| ErrorStack.Isolate.GetPrivateStackSymbol | src/isolate/stack_trace.cc:14-22 | the first call creates a fresh key and stores it; every later call returns the stored key |
| ErrorStack.AttachStackGetter | src/isolate/stack_trace.cc:89-100 | the slot under the isolate's key becomes `data`, other slots unchanged, `stack` becomes the accessor; a key made on first use is fresh |
| ErrorStack.AttachStack | src/isolate/stack_trace.cc:111-113 | the slot becomes `Snapshot(capture)` and the accessor is installed; a key made on first use is fresh |
| ErrorStack.AttachLeavesOtherIsolate | src/isolate/stack_trace.cc:14-22 | attaching through one isolate leaves the slot another isolate keeps on the same error unchanged: keys are per isolate |
| ErrorStack.ChainStack | src/isolate/stack_trace.cc:115-137 | the slot becomes `ChainedSlot(old slot, engine trace, old stack property, capture)`, other slots unchanged, the accessor is installed; a key made on first use is fresh |
| ErrorStack.ErrorStackGetter | src/isolate/stack_trace.cc:69-84 | reading `stack` returns `StackText(constructor name, message, slot)` and leaves the key unchanged |
| ErrorStack.ChainOntoExisting | src/isolate/stack_trace.cc:118-119 | with a filled slot `d`: the result's older half is `d` itself, one pair is added, and the new capture's leaf follows all old leaves in the rendering |
| ErrorStack.ChainOntoEmpty | src/isolate/stack_trace.cc:119-131 | with an empty slot: engine trace `t` gives `Pair(Snapshot(new), Snapshot(t))`; else a string `stack` gives `Pair(Snapshot(new), Text(s))`; else `Snapshot(new)` as `AttachStack` |
| ErrorStack.ChainAll | src/isolate/stack_trace.cc:115-137 | one or more calls always leave a filled slot |
| ErrorStack.ChainAllOntoExisting | src/isolate/stack_trace.cc:133-136 | n calls onto a filled slot add n pairs and append the n captures' leaves in call order |
| ErrorStack.ChainAllOntoUnseen | src/isolate/stack_trace.cc:119-136 | n calls onto an error with nothing to recover leave n - 1 pairs whose leaves are the captures in call order |
| ErrorStack.RenderChainOntoUnseen | src/isolate/stack_trace.cc:47-57 | that tree renders as the captures in call order, joined by the marker |
| ErrorStack.ChainAllFromFirst | src/isolate/stack_trace.cc:119-136 | after the first call, later calls act as chaining onto the first call's result |
| ErrorStack.ThreeCrossings | src/isolate/stack_trace.cc:51-57 | three crossings render as first capture, marker, second, marker, third |
| ErrorStack.AttachThenChain | src/isolate/stack_trace.cc:111-136 | `AttachStack` then `ChainStack` leaves the same tree as two `ChainStack` calls on an error with nothing to recover |
| ErrorStack.SnapshotRead | src/isolate/stack_trace.cc:74-82 | the getter on a snapshot is `name + ": " + message` followed by the frames' text |
| ErrorStack.NamedFrameRead | src/isolate/stack_trace.cc:159 | the getter on one named non-eval frame gives `name: message\n    at fn (script:line:column)` |
| Frames.SampleFrameLine | src/isolate/stack_trace.cc:159 | the frame `f` in `a.js` at 3:7 is written as `"\n    at f (a.js:3:7)"` |
| ErrorStack.SingleFrameRead | src/isolate/stack_trace.cc:74-82 | `Error`, `boom` and that frame read back as `"Error: boom\n    at f (a.js:3:7)"` |
| ErrorStack.PairRead | src/isolate/stack_trace.cc:51-57 | the getter on a pair is the getter on its older half, the marker, then the newer half |
| ErrorStack.FlattenedStackReadsBack | src/isolate/stack_trace.cc:31-46 | a flattened `stack` string `name: message` + continuation lines reads back unchanged through the getter; the dropped first line is the one the getter writes |
| ErrorStack.FlattenedThenChained | src/isolate/stack_trace.cc:123-128 | a flattened error that crosses a boundary reads as its old `stack` text, the marker, then the new capture |

## Left out

- V8 handle and lifetime machinery is not modelled. This covers `Persistent`/`Deref`,
  `ClassHandle::NewInstance`/`Unwrap` and `MakeClass`/`Definition`. A `StackTraceHolder` is
  the `Snapshot` leaf, and the two-element array is the `Pair` node.
- Property installation is reduced to a flag. `SetAccessor` and `DontEnum` become the
  `Accessor` value of the `stack` property. Enumerability is not modelled.
- Exception plumbing is not modelled: `Unmaybe`, `FunctorRunners::RunCallback`, and failing
  allocations. Every operation is modelled as succeeding.
- Inputs replace what the engine computes:
  - the frames a new capture holds (the `capture` argument);
  - the trace the engine captured when the error was created (`ErrorObject.nativeTrace`,
    for `Exception::GetStackTrace`);
  - the constructor name;
  - the message after `ToString` (`ErrorObject.message`).
- Conversion details left out:
  - A script name that is not a string is not converted as V8 would convert it (for
    example, undefined becomes `"undefined"`).
  - An empty script name handle, which would write a null `char*` to the stream, is not
    modelled.
  - Names are given as text.
- ChainStack: the model does not invoke the getter when `stack` is an installed accessor
  and the slot is empty. The source would. `AttachStackGetter` always fills the slot when
  it installs the accessor (`Consistent`), so that state does not arise here. The model
  then attaches, as for any non-string `stack`.
- Byte-level encoding is not modelled. Characters are modelled as characters.
  `NewFromOneByte` at `src/isolate/stack_trace.cc:46` reads the UTF-8 bytes of the tail as
  Latin-1. So the rendered text leaf differs from the model for non-ASCII text.
- The per-isolate static storage (`IsolateEnvironment::IsolateSpecific`) is reduced to the
  `Isolate.stackSymbol` field. Its thread and isolate scoping is not modelled.
- `RenderSingleStack` takes the frame count as the sequence length. The 32-bit `int`
  frame counter cannot overflow for any stack V8 returns.
