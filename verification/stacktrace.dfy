/**
 * `get_stack_trace` of crash_reporter.py: the sanitizer's report is read line by line; the
 * line naming the signal's cause starts the trace and gives the error message, every later
 * frame line gives its function name (the fourth word), and the first blank line after the
 * start ends the trace.
 */
module StackTrace {
  import opened Wrappers
  import opened PyText

  /** The text that marks the line naming the cause of the signal. */
  const Marker := "The signal is caused by"

  /** The text of the sanitizer's hint lines. */
  const Hint := "Hint: "

  /** The separator of the frames in a trace. */
  const Arrow := " <- "

  /** The separator of the message and the frames. */
  const Dashes := " ----- "

  /** `str(line).replace("'", "")[1:]`: with `str(line)` the text of a bytes line (`b'...'`),
      every quote is deleted and the leading `b` dropped. */
  function Normalize(raw: string): (r: string)
    ensures '\'' !in r
    ensures |r| == if |RemoveAll(raw, '\'')| == 0 then 0 else |RemoveAll(raw, '\'')| - 1
  {
    var s := RemoveAll(raw, '\'');
    assert forall i :: 1 <= i < |s| ==> s[i] in s;
    DropFirst(s)
  }

  /** The state of the line loop: `start_stack_trace`, `error_msg`, `trace_funcs`, and whether
      the loop has hit its `break`. */
  datatype Scan = Scan(started: bool, errorMsg: string, frames: seq<string>, stopped: bool)

  const NoScan := Scan(false, "", [], false)

  /** A marker line whose message field exists: `line.split('==')[2]` does not raise. */
  predicate StartsTrace(line: string) {
    Contains(line, Marker) && |SplitOn(line, "==")| >= 3
  }

  /** A line that gives a frame once the trace has started: neither a hint nor a marker, and at
      least four words. */
  predicate IsFrameLine(line: string) {
    !Contains(line, Hint) && !Contains(line, Marker) && |Tokens(Strip(line))| >= 4
  }

  /** The function name of a frame line. */
  function FrameOf(line: string): (f: string)
    requires IsFrameLine(line)
    ensures |f| > 0 && ' ' !in f
  {
    TokensHaveNoSpace(Strip(line));
    var f := Tokens(Strip(line))[3];
    assert forall c :: c in f ==> c != ' ';
    f
  }

  /** One pass of the loop body. A marker line without the message field raises `IndexError`
      before the flag is set, and a frame line with fewer than four words raises it before the
      append; the bare `except` then moves on to the next line. */
  function ScanLine(s: Scan, raw: string): (r: Scan)
    requires !s.stopped
    ensures r.frames == s.frames || (r.started && |r.frames| == |s.frames| + 1 && r.frames[..|s.frames|] == s.frames)
    ensures s.started ==> r.started
  {
    var line := Normalize(raw);
    if Contains(line, Marker) && !StartsTrace(line) then s
    else
      var s1 := if StartsTrace(line) then s.(errorMsg := SplitOn(line, "==")[2], started := true) else s;
      if |Strip(line)| == 0 && s1.started then s1.(stopped := true)
      else if s1.started && IsFrameLine(line) then s1.(frames := s1.frames + [FrameOf(line)])
      else s1
  }

  /** The loop over the first `|lines|` lines, up to its `break`. */
  function ScanLines(lines: seq<string>): Scan {
    if |lines| == 0 then NoScan
    else
      var s := ScanLines(lines[..|lines| - 1]);
      if s.stopped then s else ScanLine(s, lines[|lines| - 1])
  }

  /** The result: `None` when no frame was collected. */
  function TraceOf(s: Scan): (r: Option<string>)
    ensures r.None? <==> |s.frames| == 0
  {
    if |s.frames| == 0 then None else Some(s.errorMsg + Dashes + Join(s.frames, Arrow))
  }

  /** `get_stack_trace` over the lines of the sanitizer's output. */
  function StackTraceOf(lines: seq<string>): Option<string> {
    TraceOf(ScanLines(lines))
  }

  /** The body of the loop for one line, as written: the state after it. */
  method ScanStep(s: Scan, raw: string) returns (r: Scan)
    requires !s.stopped
    ensures r == ScanLine(s, raw)
  {
    r := s;
    var line := Normalize(raw);
    if Contains(line, Marker) {
      var fields := SplitOn(line, "==");
      if |fields| < 3 {
        return s;
      }
      r := r.(errorMsg := fields[2], started := true);
    }
    assert r == if StartsTrace(line) then s.(errorMsg := SplitOn(line, "==")[2], started := true) else s;
    if |Strip(line)| == 0 && r.started {
      return r.(stopped := true);
    }
    if r.started && !Contains(line, Hint) && !Contains(line, Marker) {
      var words := Tokens(Strip(line));
      if |words| >= 4 {
        r := r.(frames := r.frames + [words[3]]);
      }
    }
  }

  /** The loop over the lines, up to its `break`. */
  method GetStackTrace(lines: seq<string>) returns (r: Option<string>)
    ensures r == StackTraceOf(lines)
  {
    var s := NoScan;
    var i := 0;
    while i < |lines|
      invariant 0 <= i <= |lines|
      invariant ScanLines(lines[..i]) == s && !s.stopped
    {
      assert lines[..i + 1][..i] == lines[..i];
      s := ScanStep(s, lines[i]);
      i := i + 1;
      if s.stopped {
        ScanStopped(lines, i);
        break;
      }
    }
    if i == |lines| {
      assert lines[..i] == lines;
    }
    r := TraceOf(s);
  }

  /** Once the loop has hit its `break`, later lines change nothing. */
  lemma {:induction false} ScanStopped(lines: seq<string>, i: int)
    requires 0 <= i <= |lines| && ScanLines(lines[..i]).stopped
    ensures ScanLines(lines) == ScanLines(lines[..i])
    decreases |lines| - i
  {
    if i < |lines| {
      assert lines[..i + 1][..i] == lines[..i];
      ScanStopped(lines, i + 1);
    } else {
      assert lines[..i] == lines;
    }
  }

  /** Some line of the output is a marker line with its message field. */
  ghost predicate HasStart(lines: seq<string>) {
    exists i :: 0 <= i < |lines| && StartsTrace(Normalize(lines[i]))
  }

  /** Some frame line of the output has `f` as its function name. */
  ghost predicate FrameFrom(lines: seq<string>, f: string) {
    exists i :: 0 <= i < |lines| && IsFrameLine(Normalize(lines[i])) && f == FrameOf(Normalize(lines[i]))
  }

  /** Every frame is the function name of some frame line, and there are frames only when the
      trace has started, which needs a marker line with its message field. */
  ghost predicate FramesFromLines(lines: seq<string>, s: Scan) {
    (s.started ==> HasStart(lines)) &&
    (!s.started ==> |s.frames| == 0) &&
    forall k :: 0 <= k < |s.frames| ==> FrameFrom(lines, s.frames[k])
  }

  /** One line adds at most its own frame, and starts the trace only when it is a marker line
      with its message field. */
  lemma ScanLineStep(s: Scan, raw: string)
    requires !s.stopped
    ensures var r := ScanLine(s, raw);
      (r.frames == s.frames || (IsFrameLine(Normalize(raw)) && r.frames == s.frames + [FrameOf(Normalize(raw))])) &&
      (r.started ==> s.started || StartsTrace(Normalize(raw))) &&
      (!r.started ==> !s.started)
  {
  }

  /** The trace starts only at a marker line with its message field, and no frame comes
      before it. */
  lemma {:induction false} ScanLinesStarted(lines: seq<string>)
    ensures ScanLines(lines).started ==> HasStart(lines)
    ensures !ScanLines(lines).started ==> |ScanLines(lines).frames| == 0
  {
    if |lines| > 0 {
      var init := lines[..|lines| - 1];
      ScanLinesStarted(init);
      var s := ScanLines(init);
      if !s.stopped {
        ScanLineStep(s, lines[|lines| - 1]);
      }
      if s.started {
        var i :| 0 <= i < |init| && StartsTrace(Normalize(init[i]));
        assert lines[i] == init[i];
      }
    }
  }

  /** Every frame is the function name of some frame line. */
  lemma {:induction false} ScanLinesFrameFrom(lines: seq<string>)
    ensures forall k :: 0 <= k < |ScanLines(lines).frames| ==> FrameFrom(lines, ScanLines(lines).frames[k])
  {
    if |lines| > 0 {
      var init := lines[..|lines| - 1];
      var last := lines[|lines| - 1];
      ScanLinesFrameFrom(init);
      var s := ScanLines(init);
      var r := ScanLines(lines);
      if !s.stopped {
        ScanLineStep(s, last);
      }
      assert r.frames == s.frames || (IsFrameLine(Normalize(last)) && r.frames == s.frames + [FrameOf(Normalize(last))]);
      forall k | 0 <= k < |r.frames|
        ensures FrameFrom(lines, r.frames[k])
      {
        if k < |s.frames| {
          assert FrameFrom(init, s.frames[k]);
          var i :| 0 <= i < |init| && IsFrameLine(Normalize(init[i])) && s.frames[k] == FrameOf(Normalize(init[i]));
          assert lines[i] == init[i];
        } else {
          assert lines[|lines| - 1] == last;
        }
      }
    }
  }

  lemma ScanLinesFrames(lines: seq<string>)
    ensures FramesFromLines(lines, ScanLines(lines))
  {
    ScanLinesStarted(lines);
    ScanLinesFrameFrom(lines);
  }

  /** A line that is empty once normalized and stripped: it ends a started trace. */
  ghost predicate BlankLine(raw: string) {
    |Strip(Normalize(raw))| == 0
  }

  /** Line `m` is the first marker line with its message field. */
  ghost predicate FirstStart(lines: seq<string>, m: int) {
    0 <= m < |lines| && StartsTrace(Normalize(lines[m])) &&
    forall k :: 0 <= k < m ==> !StartsTrace(Normalize(lines[k]))
  }

  /** No line from `m` up to `j` is blank. */
  ghost predicate NoBlank(lines: seq<string>, m: int, j: int) {
    0 <= m && j <= |lines| && forall k :: m <= k < j ==> !BlankLine(lines[k])
  }

  /** Both facts hold of a prefix that keeps line `j`. */
  lemma WindowTake(lines: seq<string>, m: int, j: int, n: int)
    requires FirstStart(lines, m) && NoBlank(lines, m, j) && m < n <= |lines| && j <= n
    ensures FirstStart(lines[..n], m) && NoBlank(lines[..n], m, j)
  {
  }

  /** Before the first marker line with its message field the loop changes nothing. */
  lemma {:induction false} ScanLinesIdle(lines: seq<string>)
    requires forall k :: 0 <= k < |lines| ==> !StartsTrace(Normalize(lines[k]))
    ensures ScanLines(lines) == NoScan
  {
    if |lines| > 0 {
      ScanLinesIdle(lines[..|lines| - 1]);
    }
  }

  /** A non-blank line keeps a started trace open, and a marker line with its message field
      starts it. */
  lemma ScanLineOpen(s: Scan, raw: string)
    requires !s.stopped && (s.started || StartsTrace(Normalize(raw)))
    requires !BlankLine(raw)
    ensures ScanLine(s, raw).started && !ScanLine(s, raw).stopped
  {
  }

  /** The last line leaves the loop open when it is not blank and the trace has started
      before it or starts at it. */
  lemma ScanLinesOpenLast(lines: seq<string>)
    requires |lines| > 0 && !BlankLine(lines[|lines| - 1])
    requires !ScanLines(lines[..|lines| - 1]).stopped
    requires ScanLines(lines[..|lines| - 1]).started || StartsTrace(Normalize(lines[|lines| - 1]))
    ensures ScanLines(lines).started && !ScanLines(lines).stopped
  {
    ScanLineOpen(ScanLines(lines[..|lines| - 1]), lines[|lines| - 1]);
  }

  /** The loop opens at the first marker line with its message field. */
  lemma ScanLinesOpenAt(lines: seq<string>, m: int)
    requires FirstStart(lines, m) && m == |lines| - 1 && NoBlank(lines, m, |lines|)
    ensures ScanLines(lines).started && !ScanLines(lines).stopped
  {
    ScanLinesIdle(lines[..m]);
    ScanLinesOpenLast(lines);
  }

  /** From the first marker line with its message field on, the loop stays open while the
      lines are not blank. */
  lemma {:induction false} ScanLinesOpen(lines: seq<string>, m: int)
    requires FirstStart(lines, m) && NoBlank(lines, m, |lines|)
    ensures ScanLines(lines).started && !ScanLines(lines).stopped
  {
    if m == |lines| - 1 {
      ScanLinesOpenAt(lines, m);
    } else {
      WindowTake(lines, m, |lines| - 1, |lines| - 1);
      ScanLinesOpen(lines[..|lines| - 1], m);
      ScanLinesOpenLast(lines);
    }
  }

  /** On an open trace a frame line as the last line appends its function name. */
  lemma ScanLinesFrameLast(lines: seq<string>)
    requires |lines| > 0 && IsFrameLine(Normalize(lines[|lines| - 1]))
    requires ScanLines(lines[..|lines| - 1]).started && !ScanLines(lines[..|lines| - 1]).stopped
    ensures FrameOf(Normalize(lines[|lines| - 1])) in ScanLines(lines).frames
  {
    var s := ScanLines(lines[..|lines| - 1]);
    assert ScanLines(lines).frames == s.frames + [FrameOf(Normalize(lines[|lines| - 1]))];
  }

  /** One more line never takes a frame away. */
  lemma ScanLinesKeepsFrames(lines: seq<string>)
    requires |lines| > 0
    ensures ScanLines(lines[..|lines| - 1]).frames <= ScanLines(lines).frames
  {
    var s := ScanLines(lines[..|lines| - 1]);
    if !s.stopped {
      ScanLineStep(s, lines[|lines| - 1]);
    }
  }

  /** Conversely, a frame line after the first marker line with its message field, with no
      blank line between them, has its function name among the frames. */
  lemma {:induction false} FrameCollected(lines: seq<string>, m: int, j: int)
    requires FirstStart(lines, m) && m < j < |lines| && NoBlank(lines, m, j)
    requires IsFrameLine(Normalize(lines[j]))
    ensures FrameOf(Normalize(lines[j])) in ScanLines(lines).frames
  {
    WindowTake(lines, m, j, |lines| - 1);
    if j == |lines| - 1 {
      ScanLinesOpen(lines[..j], m);
      ScanLinesFrameLast(lines);
    } else {
      FrameCollected(lines[..|lines| - 1], m, j);
      ScanLinesKeepsFrames(lines);
    }
  }

  /** Without a marker line carrying its message field the result is `None`. */
  lemma NoMarkerNoTrace(lines: seq<string>)
    requires !HasStart(lines)
    ensures StackTraceOf(lines) == None
  {
    ScanLinesFrames(lines);
  }

  /** Every frame is one word: it holds no whitespace. */
  lemma {:induction false} FramesAreWords(lines: seq<string>)
    ensures forall k :: 0 <= k < |ScanLines(lines).frames| ==> ' ' !in ScanLines(lines).frames[k]
  {
    var s := ScanLines(lines);
    ScanLinesFrames(lines);
    forall k | 0 <= k < |s.frames| ensures ' ' !in s.frames[k] {
      assert FrameFrom(lines, s.frames[k]);
      var i :| 0 <= i < |lines| && IsFrameLine(Normalize(lines[i])) && s.frames[k] == FrameOf(Normalize(lines[i]));
    }
  }

  /** The frames can be read back from a trace: the text after the message and the dashes,
      split at the arrows. */
  lemma TraceFramesRoundTrip(lines: seq<string>)
    requires StackTraceOf(lines).Some?
    ensures var s := ScanLines(lines);
      var t := StackTraceOf(lines).value;
      |s.errorMsg + Dashes| <= |t| && t[..|s.errorMsg + Dashes|] == s.errorMsg + Dashes &&
      SplitOn(t[|s.errorMsg + Dashes|..], Arrow) == s.frames
  {
    var s := ScanLines(lines);
    FramesAreWords(lines);
    var t := StackTraceOf(lines).value;
    assert t == (s.errorMsg + Dashes) + Join(s.frames, Arrow);
    assert t[|s.errorMsg + Dashes|..] == Join(s.frames, Arrow);
    SplitOnJoin(s.frames, Arrow);
  }
}
