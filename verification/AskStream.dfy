/** The language of the Ask progress stream: what the decoder accepts, and that everything sent is in it. */
module AskStream {
  import opened Wrappers
  import opened Sequences
  import opened Json
  import opened JsonParser
  import opened AskEvents
  import opened AskDecoder
  import opened AskChunks

  // ---------------------------------------------------------------- frames

  predicate Unbroken(line: Text) { NEWLINE !in line && RETURN !in line }

  predicate IsComment(line: Text) { line != [] && line[0] == COMMENT && Unbroken(line) }

  /** One event: comments and blank lines, its data line, more comments, and the blank line that ends it. */
  datatype Frame = Frame(before: seq<Text>, data: Text, within: seq<Text>)

  predicate IsFrame(f: Frame) {
    (forall i :: 0 <= i < |f.before| ==> f.before[i] == [] || IsComment(f.before[i]))
    && (forall i :: 0 <= i < |f.within| ==> IsComment(f.within[i]))
    && Unbroken(f.data)
  }

  function FrameLines(): Frame -> seq<Text> { (f: Frame) => f.before + [DATA + f.data] + f.within + [[]] }

  function Blanks(n: nat): seq<Text> { seq(n, i => []) }

  function FrameEvent(vs: Validators): Frame -> Json {
    (f: Frame) => if EventOf(vs, f.data).Some? then EventOf(vs, f.data).value else Null
  }

  /** Valid events, the last of them and no other terminal. */
  predicate WellFramed(vs: Validators, frames: seq<Frame>) {
    frames != [] && IsFrame(frames[0]) && EventOf(vs, frames[0].data).Some?
    && if IsTerminal(EventOf(vs, frames[0].data).value) then |frames| == 1 else WellFramed(vs, frames[1..])
  }

  function StreamLines(frames: seq<Frame>, n: nat): seq<Text> { FlatMap(FrameLines(), frames) + Blanks(n) }

  const END := State(None, true)

  // ---------------------------------------------------------------- frames decode

  /** A line that yields no event leaves the run to the lines after it. */
  lemma SilentLine(vs: Validators, s: State, lines: seq<Text>)
    requires lines != [] && ReadLine(vs, s, lines[0]).Some? && ReadLine(vs, s, lines[0]).value.events == []
    ensures Run(vs, s, lines) == Run(vs, ReadLine(vs, s, lines[0]).value.state, lines[1..])
  {
    var more := Run(vs, ReadLine(vs, s, lines[0]).value.state, lines[1..]);
    if more.Some? { assert [] + more.value.events == more.value.events; }
  }

  lemma SilentLines(vs: Validators, s: State, t: State, a: seq<Text>, b: seq<Text>)
    requires Run(vs, s, a) == Some(Ran(t, []))
    ensures Run(vs, s, a + b) == Run(vs, t, b)
  {
    RunConcat(vs, s, a, b);
    var more := Run(vs, t, b);
    if more.Some? { assert [] + more.value.events == more.value.events; }
  }

  lemma {:induction false} SkippedLines(vs: Validators, lines: seq<Text>)
    requires forall i :: 0 <= i < |lines| ==> lines[i] == [] || IsComment(lines[i])
    ensures Run(vs, START, lines) == Some(Ran(START, []))
  {
    if lines != [] {
      assert lines[0] == [] || IsComment(lines[0]);
      SilentLine(vs, START, lines);
      SkippedLines(vs, lines[1..]);
    }
  }

  lemma {:induction false} PendingComments(vs: Validators, data: Text, lines: seq<Text>)
    requires forall i :: 0 <= i < |lines| ==> IsComment(lines[i])
    ensures Run(vs, State(Some(data), false), lines) == Some(Ran(State(Some(data), false), []))
  {
    if lines != [] {
      assert IsComment(lines[0]);
      SilentLine(vs, State(Some(data), false), lines);
      PendingComments(vs, data, lines[1..]);
    }
  }

  lemma OneLine(vs: Validators, s: State, line: Text)
    ensures Run(vs, s, [line]) == ReadLine(vs, s, line)
  {
    assert [line][1..] == [];
    assert Run(vs, s, [line][1..]) == Some(Ran(s, []));
    var first := ReadLine(vs, s, line);
    if first.Some? {
      assert Run(vs, first.value.state, [line][1..]) == Some(Ran(first.value.state, []));
      assert first.value.events + [] == first.value.events;
    }
  }

  lemma DataStarts(data: Text)
    ensures DATA <= DATA + data && (DATA + data)[|DATA|..] == data && (DATA + data)[0] == 0x64
    ensures Unbroken(data) ==> RETURN !in DATA + data
  {
  }

  lemma FrameEnds(vs: Validators, f: Frame)
    requires IsFrame(f) && EventOf(vs, f.data).Some?
    ensures var event := EventOf(vs, f.data).value;
            Run(vs, State(Some(f.data), false), f.within + [[]]) == Some(Ran(State(None, IsTerminal(event)), [event]))
  {
    var pending := State(Some(f.data), false);
    PendingComments(vs, f.data, f.within);
    OneLine(vs, pending, []);
    SilentLines(vs, pending, pending, f.within, [[]]);
  }

  lemma DataPends(vs: Validators, data: Text)
    requires Unbroken(data)
    ensures Run(vs, START, [DATA + data]) == Some(Ran(State(Some(data), false), []))
  {
    DataStarts(data);
    OneLine(vs, START, DATA + data);
  }

  lemma FrameSplit(f: Frame)
    ensures FrameLines()(f) == f.before + ([DATA + f.data] + (f.within + [[]]))
  {
  }

  lemma FrameRuns(vs: Validators, f: Frame)
    requires IsFrame(f) && EventOf(vs, f.data).Some?
    ensures var event := EventOf(vs, f.data).value;
            Run(vs, START, FrameLines()(f)) == Some(Ran(State(None, IsTerminal(event)), [event]))
  {
    var pending := State(Some(f.data), false);
    FrameEnds(vs, f);
    DataPends(vs, f.data);
    SilentLines(vs, START, pending, [DATA + f.data], f.within + [[]]);
    SkippedLines(vs, f.before);
    SilentLines(vs, START, START, f.before, [DATA + f.data] + (f.within + [[]]));
    FrameSplit(f);
  }

  lemma {:induction false} BlanksRun(vs: Validators, n: nat)
    ensures Run(vs, END, Blanks(n)) == Some(Ran(END, []))
  {
    if n > 0 {
      assert Blanks(n)[1..] == Blanks(n - 1);
      SilentLine(vs, END, Blanks(n));
      BlanksRun(vs, n - 1);
    }
  }

  lemma {:induction false} FramesRun(vs: Validators, frames: seq<Frame>, n: nat)
    requires WellFramed(vs, frames)
    ensures Run(vs, START, StreamLines(frames, n)) == Some(Ran(END, Map(FrameEvent(vs), frames)))
  {
    var f, rest := frames[0], frames[1..];
    FrameRuns(vs, f);
    var more := StreamLines(rest, n);
    assert StreamLines(frames, n) == FrameLines()(f) + more;
    RunConcat(vs, START, FrameLines()(f), more);
    if IsTerminal(EventOf(vs, f.data).value) {
      assert more == Blanks(n);
      BlanksRun(vs, n);
      assert Map(FrameEvent(vs), rest) == [];
    } else {
      FramesRun(vs, rest, n);
    }
  }

  // ---------------------------------------------------------------- what decodes is framed

  /** After the terminal event only blank lines pass. */
  lemma {:induction false} OnlyBlanks(vs: Validators, lines: seq<Text>)
    requires Run(vs, END, lines).Some?
    ensures lines == Blanks(|lines|) && Run(vs, END, lines) == Some(Ran(END, []))
  {
    if lines != [] {
      assert ReadLine(vs, END, lines[0]) == Some(Ran(END, []));
      SilentLine(vs, END, lines);
      OnlyBlanks(vs, lines[1..]);
      assert lines == [lines[0]] + lines[1..];
      assert Blanks(|lines|) == [[]] + Blanks(|lines| - 1);
    }
  }

  lemma RunHead(vs: Validators, s: State, lines: seq<Text>) returns (first: Ran, more: Ran)
    requires lines != [] && Run(vs, s, lines).Some?
    ensures ReadLine(vs, s, lines[0]) == Some(first) && Run(vs, first.state, lines[1..]) == Some(more)
    ensures Run(vs, s, lines) == Some(Ran(more.state, first.events + more.events))
    ensures lines == [lines[0]] + lines[1..] && RETURN !in lines[0]
  {
    first := ReadLine(vs, s, lines[0]).value;
    more := Run(vs, first.state, lines[1..]).value;
  }

  ghost predicate Frames(vs: Validators, frames: seq<Frame>, n: nat, lines: seq<Text>, events: seq<Json>) {
    WellFramed(vs, frames) && lines == StreamLines(frames, n) && events == Map(FrameEvent(vs), frames)
  }

  lemma StreamHead(frames: seq<Frame>, n: nat)
    requires frames != []
    ensures StreamLines(frames, n) == FrameLines()(frames[0]) + StreamLines(frames[1..], n)
  {
  }

  lemma Reframe(vs: Validators, frames: seq<Frame>, g: Frame)
    requires WellFramed(vs, frames) && IsFrame(g) && g.data == frames[0].data
    ensures WellFramed(vs, [g] + frames[1..])
    ensures Map(FrameEvent(vs), [g] + frames[1..]) == Map(FrameEvent(vs), frames)
  {
    assert ([g] + frames[1..])[1..] == frames[1..];
  }

  lemma ReframeLines(frames: seq<Frame>, g: Frame, n: nat)
    requires frames != []
    ensures StreamLines([g] + frames[1..], n) == FrameLines()(g) + StreamLines(frames[1..], n)
  {
    assert ([g] + frames[1..])[1..] == frames[1..];
    StreamHead([g] + frames[1..], n);
  }

  lemma SkipLines(frames: seq<Frame>, line: Text, g: Frame, n: nat)
    requires frames != [] && g == frames[0].(before := [line] + frames[0].before)
    ensures StreamLines([g] + frames[1..], n) == [line] + StreamLines(frames, n)
  {
    var later := StreamLines(frames[1..], n);
    StreamHead(frames, n);
    ReframeLines(frames, g, n);
    SkippedFrame(frames[0], line);
    InFront(line, FrameLines()(frames[0]), later);
  }

  lemma InFront(line: Text, a: seq<Text>, b: seq<Text>)
    ensures ([line] + a) + b == [line] + (a + b)
  {
  }

  /** A skipped line joins the first frame. */
  lemma SkipJoins(vs: Validators, line: Text, frames: seq<Frame>, n: nat, lines: seq<Text>, events: seq<Json>)
    returns (joined: seq<Frame>)
    requires (line == [] || IsComment(line)) && Frames(vs, frames, n, lines, events)
    ensures Frames(vs, joined, n, [line] + lines, events)
  {
    var g := frames[0].(before := [line] + frames[0].before);
    joined := [g] + frames[1..];
    Reframe(vs, frames, g);
    SkipLines(frames, line, g, n);
  }

  lemma SkippedFrame(f: Frame, line: Text)
    ensures FrameLines()(f.(before := [line] + f.before)) == [line] + FrameLines()(f)
  {
    var lines := [DATA + f.data] + (f.within + [[]]);
    FrameSplit(f);
    FrameSplit(f.(before := [line] + f.before));
    assert ([line] + f.before) + lines == [line] + (f.before + lines);
  }

  /** A comment after the data line joins its frame. */
  lemma CommentJoins(vs: Validators, data: Text, line: Text, frames: seq<Frame>, n: nat, lines: seq<Text>, events: seq<Json>)
    returns (joined: seq<Frame>)
    requires IsComment(line) && Frames(vs, frames, n, [DATA + data] + lines, events)
    requires frames[0].before == [] && frames[0].data == data
    ensures Frames(vs, joined, n, [DATA + data] + ([line] + lines), events)
    ensures joined[0].before == [] && joined[0].data == data
  {
    var f := frames[0];
    var g := f.(within := [line] + f.within);
    joined := [g] + frames[1..];
    Reframe(vs, frames, g);
    StreamHead(frames, n);
    ReframeLines(frames, g, n);
    AfterData(DATA + data, line, f.within, StreamLines(frames[1..], n), lines);
  }

  lemma AfterData(head: Text, line: Text, within: seq<Text>, later: seq<Text>, lines: seq<Text>)
    requires [head] + lines == ([] + [head] + within + [[]]) + later
    ensures [head] + ([line] + lines) == ([] + [head] + ([line] + within) + [[]]) + later
  {
    assert lines == ([head] + lines)[1..];
    assert (([] + [head] + within + [[]]) + later)[1..] == within + [[]] + later;
  }

  lemma LastFrame(vs: Validators, data: Text, n: nat, event: Json)
    requires Unbroken(data) && EventOf(vs, data) == Some(event) && IsTerminal(event)
    ensures Frames(vs, [Frame([], data, [])], n, [DATA + data] + ([[]] + Blanks(n)), [event])
  {
    var f := Frame([], data, []);
    assert [f][1..] == [];
    assert FlatMap(FrameLines(), [f][1..]) == [];
    assert FrameLines()(f) == [DATA + data] + [[]];
    assert Map(FrameEvent(vs), [f]) == [event];
  }

  lemma NextFrame(vs: Validators, data: Text, frames: seq<Frame>, n: nat, lines: seq<Text>, events: seq<Json>, event: Json)
    requires Unbroken(data) && EventOf(vs, data) == Some(event) && !IsTerminal(event)
    requires Frames(vs, frames, n, lines, events)
    ensures Frames(vs, [Frame([], data, [])] + frames, n, [DATA + data] + ([[]] + lines), [event] + events)
  {
    var f := Frame([], data, []);
    var all := [f] + frames;
    assert all[1..] == frames;
    BareFrame(data);
    StreamHead(all, n);
    TwoInFront(DATA + data, [], StreamLines(frames, n));
    EventInFront(vs, f, frames);
  }

  lemma TwoInFront(a: Text, b: Text, later: seq<Text>)
    ensures ([a] + [b]) + later == [a] + ([b] + later)
  {
  }

  lemma EventInFront(vs: Validators, f: Frame, frames: seq<Frame>)
    requires EventOf(vs, f.data).Some?
    ensures Map(FrameEvent(vs), [f] + frames) == [EventOf(vs, f.data).value] + Map(FrameEvent(vs), frames)
  {
  }

  lemma BareFrame(data: Text)
    ensures FrameLines()(Frame([], data, [])) == [DATA + data] + [[]] && IsFrame(Frame([], data, [])) == Unbroken(data)
  {
  }

  lemma {:induction false} FindFrames(vs: Validators, lines: seq<Text>, events: seq<Json>)
    returns (frames: seq<Frame>, n: nat)
    requires Run(vs, START, lines) == Some(Ran(END, events))
    requires forall i :: 0 <= i < |lines| ==> NEWLINE !in lines[i]
    ensures Frames(vs, frames, n, lines, events)
    decreases |lines|, 1
  {
    var line := lines[0];
    var first, more := RunHead(vs, START, lines);
    assert NEWLINE !in line;
    assert forall i :: 0 <= i < |lines[1..]| ==> NEWLINE !in lines[1..][i];
    if line == [] || line[0] == COMMENT {
      SilentLine(vs, START, lines);
      frames, n := FindFrames(vs, lines[1..], events);
      frames := SkipJoins(vs, line, frames, n, lines[1..], events);
    } else {
      var data := line[|DATA|..];
      assert line == DATA + data;
      SilentLine(vs, START, lines);
      frames, n := FindPending(vs, data, lines[1..], events);
    }
  }

  lemma {:induction false} FindPending(vs: Validators, data: Text, lines: seq<Text>, events: seq<Json>)
    returns (frames: seq<Frame>, n: nat)
    requires Run(vs, State(Some(data), false), lines) == Some(Ran(END, events)) && Unbroken(data)
    requires forall i :: 0 <= i < |lines| ==> NEWLINE !in lines[i]
    ensures Frames(vs, frames, n, [DATA + data] + lines, events)
    ensures frames[0].before == [] && frames[0].data == data
    decreases |lines|, 0
  {
    var line := lines[0];
    var first, more := RunHead(vs, State(Some(data), false), lines);
    assert NEWLINE !in line;
    assert forall i :: 0 <= i < |lines[1..]| ==> NEWLINE !in lines[1..][i];
    if line == [] {
      var event := EventOf(vs, data).value;
      if IsTerminal(event) {
        OnlyBlanks(vs, lines[1..]);
        frames, n := [Frame([], data, [])], |lines| - 1;
        LastFrame(vs, data, n, event);
      } else {
        frames, n := FindFrames(vs, lines[1..], more.events);
        NextFrame(vs, data, frames, n, lines[1..], more.events, event);
        frames := [Frame([], data, [])] + frames;
      }
    } else {
      SilentLine(vs, State(Some(data), false), lines);
      frames, n := FindPending(vs, data, lines[1..], events);
      frames := CommentJoins(vs, data, line, frames, n, lines[1..], events);
    }
  }

  // ---------------------------------------------------------------- lines and texts

  lemma {:induction false} TextOfLines(text: Text)
    ensures text == Unlines(Lines(text)) + Rest(text)
    decreases |text|
  {
    var n := NewlineAt(text);
    if n < |text| {
      var later := text[n + 1..];
      TextOfLines(later);
      CutAt(text, n);
      Nest(text[..n], [NEWLINE], Unlines(Lines(later)), Rest(later));
    }
  }

  lemma CutAt(text: Text, n: nat)
    requires n < |text|
    ensures text == text[..n] + [text[n]] + text[n + 1..]
  {
  }

  lemma Nest(a: Text, b: Text, c: Text, d: Text)
    ensures (a + b + c) + d == a + b + (c + d)
  {
  }

  lemma {:induction false} LinesUnbroken(text: Text)
    ensures forall i :: 0 <= i < |Lines(text)| ==> NEWLINE !in Lines(text)[i]
    decreases |text|
  {
    var n := NewlineAt(text);
    if n < |text| { LinesUnbroken(text[n + 1..]); }
  }

  lemma {:induction false} LinesOfText(lines: seq<Text>)
    requires forall i :: 0 <= i < |lines| ==> NEWLINE !in lines[i]
    ensures Lines(Unlines(lines)) == lines && Rest(Unlines(lines)) == []
  {
    if lines != [] {
      var text := Unlines(lines);
      var n := |lines[0]|;
      assert text[..n] == lines[0] && text[n] == NEWLINE && text[n + 1..] == Unlines(lines[1..]);
      assert NEWLINE !in lines[0];
      FirstNewline(text, n);
      LinesOfText(lines[1..]);
    }
  }

  lemma {:induction false} FramesUnbroken(vs: Validators, frames: seq<Frame>, n: nat)
    requires WellFramed(vs, frames)
    ensures forall i :: 0 <= i < |StreamLines(frames, n)| ==> NEWLINE !in StreamLines(frames, n)[i]
    decreases |frames|
  {
    StreamHead(frames, n);
    FrameUnbroken(frames[0]);
    if |frames| > 1 && !IsTerminal(EventOf(vs, frames[0].data).value) {
      FramesUnbroken(vs, frames[1..], n);
    } else {
      assert StreamLines(frames[1..], n) == Blanks(n);
    }
  }

  lemma FrameUnbroken(f: Frame)
    requires IsFrame(f)
    ensures forall i :: 0 <= i < |FrameLines()(f)| ==> NEWLINE !in FrameLines()(f)[i]
  {
    DataStarts(f.data);
  }

  // ---------------------------------------------------------------- main results

  /**
   * The decoder accepts exactly its language: comments and blank lines around
   * events of one data line each, one terminal event, then only blank lines.
   */
  lemma AcceptsExactlyFrames(vs: Validators, text: Text, events: seq<Json>)
    ensures Whole(vs, text) == Some(events) <==>
            exists frames, n ::
              WellFramed(vs, frames) && text == Unlines(StreamLines(frames, n)) && events == Map(FrameEvent(vs), frames)
  {
    TextOfLines(text);
    LinesUnbroken(text);
    if Whole(vs, text) == Some(events) {
      var frames, n := FindFrames(vs, Lines(text), events);
      assert Unlines(Lines(text)) + [] == Unlines(Lines(text));
      assert WellFramed(vs, frames) && text == Unlines(StreamLines(frames, n)) && events == Map(FrameEvent(vs), frames);
    }
    forall frames, n | WellFramed(vs, frames) && text == Unlines(StreamLines(frames, n)) && events == Map(FrameEvent(vs), frames)
      ensures Whole(vs, text) == Some(events)
    {
      FramesDecode(vs, frames, n);
    }
  }

  lemma FramesDecode(vs: Validators, frames: seq<Frame>, n: nat)
    requires WellFramed(vs, frames)
    ensures Whole(vs, Unlines(StreamLines(frames, n))) == Some(Map(FrameEvent(vs), frames))
    ensures Lines(Unlines(StreamLines(frames, n))) == StreamLines(frames, n) && Rest(Unlines(StreamLines(frames, n))) == []
  {
    FramesUnbroken(vs, frames, n);
    LinesOfText(StreamLines(frames, n));
    FramesRun(vs, frames, n);
  }
}
