/** One captured call stack (a `StackTrace` snapshot) and its rendering into
    continuation lines, `StackTraceHolder::RenderSingleStack`. */
module Frames {
  import opened CStrings

  /** The C++ `int` that V8 hands out for line, column and script id. */
  newtype int32 = x: int | -0x8000_0000 <= x < 0x8000_0000

  /** V8's `Message::kNoScriptIdInfo`: the script id of a frame that has none. */
  const NoScriptIdInfo: int32 := 0

  /** One stack frame, with its names already converted to text
      (an absent function name is the empty string). */
  datatype Frame = Frame(
    scriptName: string,
    functionName: string,
    line: int32,
    column: int32,
    isEval: bool,
    scriptId: int32)

  /** A captured stack, innermost frame first. */
  type FrameSeq = seq<Frame>

  /** Every rendered frame starts with this. */
  const AtPrefix: string := "\n    at "

  /** `<script>:<line>:<column>` as the stream writes it. */
  function Location(f: Frame): string
  {
    CStr(f.scriptName) + ":" + IntToString(f.line as int) + ":" + IntToString(f.column as int)
  }

  /** The segment written for one frame: one of four shapes. The eval test comes before the
      function-name test, and the eval-with-script-id shape leaves its parenthesis open. */
  function FrameLine(f: Frame): string
  {
    if f.isEval then
      if f.scriptId == NoScriptIdInfo then
        AtPrefix + "[eval]:" + IntToString(f.line as int) + ":" + IntToString(f.column as int)
      else
        AtPrefix + "[eval] (" + Location(f)
    else if |f.functionName| == 0 then
      AtPrefix + Location(f)
    else
      AtPrefix + CStr(f.functionName) + " (" + Location(f) + ")"
  }

  /** The segments `line` gives to the elements of `xs`, concatenated in order. */
  function ConcatMap<T>(xs: seq<T>, line: T -> string): string
  {
    if xs == [] then "" else ConcatMap(xs[..|xs| - 1], line) + line(xs[|xs| - 1])
  }

  /** The whole rendered stack: the frames' segments, concatenated in frame order. */
  function FramesText(fs: FrameSeq): string
  {
    ConcatMap(fs, FrameLine)
  }

  /** `RenderSingleStack`: one pass over the frames, appending each frame's segment. */
  method RenderSingleStack(frames: FrameSeq) returns (s: string)
    ensures s == FramesText(frames)
  {
    s := "";
    var size := |frames|;
    for ii := 0 to size
      invariant s == FramesText(frames[..ii])
    {
      ghost var before := s;
      var frame := frames[ii];
      var scriptName := CStr(frame.scriptName);
      var lineNumber := IntToString(frame.line as int);
      var column := IntToString(frame.column as int);
      if frame.isEval {
        if frame.scriptId == NoScriptIdInfo {
          s := s + "\n    at [eval]:" + lineNumber + ":" + column;
        } else {
          s := s + "\n    at [eval] (" + scriptName + ":" + lineNumber + ":" + column;
        }
      } else {
        if |frame.functionName| == 0 {
          s := s + "\n    at " + scriptName + ":" + lineNumber + ":" + column;
        } else {
          s := s + "\n    at " + CStr(frame.functionName) + " (" + scriptName + ":" + lineNumber + ":" + column + ")";
        }
      }
      FrameLineWritten(before, frame);
      FramesTextSnoc(frames, ii);
    }
    assert frames[..size] == frames;
  }

  /** What the loop body appends for one frame, branch by branch, is that frame's segment. */
  lemma FrameLineWritten(before: string, f: Frame)
    ensures var scriptName := CStr(f.scriptName);
            var lineNumber := IntToString(f.line as int);
            var column := IntToString(f.column as int);
            if f.isEval then
              if f.scriptId == NoScriptIdInfo then
                before + "\n    at [eval]:" + lineNumber + ":" + column == before + FrameLine(f)
              else
                before + "\n    at [eval] (" + scriptName + ":" + lineNumber + ":" + column == before + FrameLine(f)
            else if |f.functionName| == 0 then
              before + "\n    at " + scriptName + ":" + lineNumber + ":" + column == before + FrameLine(f)
            else
              before + "\n    at " + CStr(f.functionName) + " (" + scriptName + ":" + lineNumber + ":" + column + ")"
                == before + FrameLine(f)
  {
    var scriptName := CStr(f.scriptName);
    var lineNumber := IntToString(f.line as int);
    var column := IntToString(f.column as int);
    if f.isEval {
      if f.scriptId == NoScriptIdInfo {
        WrittenEvalNoId(before, lineNumber, column);
      } else {
        WrittenEvalWithId(before, scriptName, lineNumber, column);
      }
    } else if |f.functionName| == 0 {
      WrittenAnonymous(before, scriptName, lineNumber, column);
    } else {
      WrittenNamed(before, CStr(f.functionName), scriptName, lineNumber, column);
    }
  }

  lemma WrittenEvalNoId(before: string, ln: string, col: string)
    ensures before + "\n    at [eval]:" + ln + ":" + col == before + (AtPrefix + "[eval]:" + ln + ":" + col)
  {
  }

  lemma WrittenEvalWithId(before: string, sn: string, ln: string, col: string)
    ensures before + "\n    at [eval] (" + sn + ":" + ln + ":" + col
         == before + (AtPrefix + "[eval] (" + (sn + ":" + ln + ":" + col))
  {
  }

  lemma WrittenAnonymous(before: string, sn: string, ln: string, col: string)
    ensures before + "\n    at " + sn + ":" + ln + ":" + col == before + (AtPrefix + (sn + ":" + ln + ":" + col))
  {
  }

  lemma WrittenNamed(before: string, fn: string, sn: string, ln: string, col: string)
    ensures before + "\n    at " + fn + " (" + sn + ":" + ln + ":" + col + ")"
         == before + (AtPrefix + fn + " (" + (sn + ":" + ln + ":" + col) + ")")
  {
  }

  /** Extending the rendered prefix of a frame sequence by one frame appends that frame's segment. */
  lemma FramesTextSnoc(fs: FrameSeq, i: nat)
    requires i < |fs|
    ensures FramesText(fs[..i + 1]) == FramesText(fs[..i]) + FrameLine(fs[i])
  {
    assert fs[..i + 1][..i] == fs[..i];
  }

  // ---- Properties of the frame formatter ----

  /** An eval frame never shows its function name: the segment does not depend on it. */
  lemma EvalHidesFunctionName(f: Frame, name: string)
    requires f.isEval
    ensures FrameLine(f.(functionName := name)) == FrameLine(f)
  {
  }

  /** Only a named, non-eval frame closes a parenthesis at the end of its segment;
      the eval-with-script-id shape ends in the column digits. */
  lemma ClosingParenExactlyForNamedFrames(f: Frame)
    ensures var r := FrameLine(f); r[|r| - 1] == ')' <==> !f.isEval && |f.functionName| > 0
  {
    var col := IntToString(f.column as int);
    var r := FrameLine(f);
    if f.isEval || |f.functionName| == 0 {
      assert r[|r| - 1] == col[|col| - 1];
    }
  }

  /** An anonymous non-eval frame: the segment is the prefix followed by the location. */
  lemma AnonymousFrameIsLocation(f: Frame)
    requires !f.isEval && |f.functionName| == 0
    ensures FrameLine(f) == AtPrefix + Location(f)
  {
  }

  /** A named frame `f` in `a.js` at line 3, column 7 is written as `"\n    at f (a.js:3:7)"`. */
  lemma SampleFrameLine(f: Frame)
    requires f == Frame("a.js", "f", 3, 7, false, 1)
    ensures FrameLine(f) == "\n    at f (a.js:3:7)"
  {
    assert Location(f) == "a.js:3:7" by {
      CStrOfNulFree("a.js");
      assert IntToString(3) == "3" && IntToString(7) == "7";
    }
    assert CStr(f.functionName) == "f" by {
      CStrOfNulFree("f");
    }
  }

  /** No segment carries a NUL: names went through their C-string view. */
  lemma FrameLineNulFree(f: Frame)
    ensures '\0' !in FrameLine(f)
  {
    var line := IntToString(f.line as int);
    var col := IntToString(f.column as int);
    assert '\0' !in AtPrefix && '\0' !in ":" && '\0' !in " (" && '\0' !in ")";
    assert '\0' !in "[eval]:" && '\0' !in "[eval] (";
    assert '\0' !in Location(f);
  }

  /** Concatenation splits along any split of the element sequence. */
  lemma {:induction false} ConcatMapAppend<T>(a: seq<T>, b: seq<T>, line: T -> string)
    ensures ConcatMap(a + b, line) == ConcatMap(a, line) + ConcatMap(b, line)
    decreases |b|
  {
    if b == [] {
      assert a + b == a;
    } else {
      var b' := b[..|b| - 1];
      assert (a + b)[..|a + b| - 1] == a + b';
      ConcatMapAppend(a, b', line);
    }
  }

  /** Rendering splits along any split of the frame sequence. */
  lemma FramesTextAppend(a: FrameSeq, b: FrameSeq)
    ensures FramesText(a + b) == FramesText(a) + FramesText(b)
  {
    ConcatMapAppend(a, b, FrameLine);
  }

  /** The first frame's segment comes first, then the rest in order. */
  lemma FramesTextCons(f: Frame, fs: FrameSeq)
    ensures FramesText([f] + fs) == FrameLine(f) + FramesText(fs)
  {
    ConcatMapAppend([f], fs, FrameLine);
    assert ConcatMap([f], FrameLine) == FrameLine(f) by {
      assert [f][..0] == [];
    }
  }

  /** Zero frames give the empty string; otherwise the text starts with a frame prefix. */
  lemma FramesTextEmptyIff(fs: FrameSeq)
    ensures FramesText(fs) == "" <==> fs == []
    ensures fs != [] ==> AtPrefix <= FramesText(fs)
  {
    if fs != [] {
      FramesTextCons(fs[0], fs[1..]);
      assert [fs[0]] + fs[1..] == fs;
    }
  }

  /** The rendered stack holds no NUL, so the C string conversion back to a V8 string keeps all of it. */
  lemma {:induction false} FramesTextNulFree(fs: FrameSeq)
    ensures '\0' !in FramesText(fs)
  {
    if fs != [] {
      FramesTextNulFree(fs[..|fs| - 1]);
      FrameLineNulFree(fs[|fs| - 1]);
    }
  }
}
