/** What the Authority sends, the decoder returns, however the stream of events and heartbeats is cut. */
module AskRoundTrip {
  import opened Wrappers
  import opened Sequences
  import opened Json
  import opened JsonParser
  import opened JsonRoundTrip
  import opened AskEvents
  import opened AskFraming
  import opened AskDecoder
  import opened AskChunks
  import opened AskStream

  /** ": keep-alive" */
  const KEEP_ALIVE: Text := [0x3a, 0x20, 0x6b, 0x65, 0x65, 0x70, 0x2d, 0x61, 0x6c, 0x69, 0x76, 0x65]
  const HEARTBEAT: Text := KEEP_ALIVE + [NEWLINE, NEWLINE]

  /** An event, with how many heartbeats were written before it. */
  datatype Sent = Sent(heartbeats: nat, event: Json)

  function Beats(n: nat): Text { if n == 0 then [] else HEARTBEAT + Beats(n - 1) }

  /** Valid events, the last of them and no other terminal. */
  predicate Sendable(vs: Validators, sent: seq<Sent>) {
    sent != [] && Format(vs, sent[0].event).Some?
    && if IsTerminal(sent[0].event) then |sent| == 1 else Sendable(vs, sent[1..])
  }

  function SentText(vs: Validators, sent: seq<Sent>): Text {
    if sent == [] then [] else Beats(sent[0].heartbeats) + FormatOf(vs, sent[0].event) + SentText(vs, sent[1..])
  }

  function FormatOf(vs: Validators, event: Json): Text {
    var frame := Format(vs, event);
    if frame.Some? then frame.value else []
  }

  /** The event as it is printed: what streamEvent rebuilds. */
  function Printed(vs: Validators): Sent -> Json {
    (s: Sent) => if StreamEvent(vs, s.event).Some? then StreamEvent(vs, s.event).value else Null
  }

  function BeatLines(n: nat): seq<Text> { if n == 0 then [] else [KEEP_ALIVE, []] + BeatLines(n - 1) }

  function FrameOf(vs: Validators): Sent -> Frame {
    (s: Sent) => Frame(BeatLines(s.heartbeats), Stringify(Printed(vs)(s)), [])
  }

  // ---------------------------------------------------------------- one frame

  lemma {:induction false} UnlinesConcat(a: seq<Text>, b: seq<Text>)
    ensures Unlines(a + b) == Unlines(a) + Unlines(b)
  {
    if a == [] {
      assert a + b == b;
    } else {
      assert (a + b)[1..] == a[1..] + b;
      UnlinesConcat(a[1..], b);
    }
  }

  lemma UnlinesTwo(a: Text)
    ensures Unlines([a, []]) == a + [NEWLINE, NEWLINE]
  {
    var blank: seq<Text> := [[]];
    assert [a, []][1..] == blank && blank[1..] == [];
    assert Unlines(blank) == [] + [NEWLINE] + Unlines(blank[1..]);
  }

  lemma {:induction false} BeatText(n: nat)
    ensures Unlines(BeatLines(n)) == Beats(n)
    ensures forall i :: 0 <= i < |BeatLines(n)| ==> BeatLines(n)[i] == [] || BeatLines(n)[i] == KEEP_ALIVE
  {
    if n > 0 {
      BeatText(n - 1);
      UnlinesTwo(KEEP_ALIVE);
      UnlinesConcat([KEEP_ALIVE, []], BeatLines(n - 1));
    }
  }

  lemma FrameText(vs: Validators, s: Sent)
    requires Format(vs, s.event).Some?
    ensures Unlines(FrameLines()(FrameOf(vs)(s))) == Beats(s.heartbeats) + Format(vs, s.event).value
  {
    var line := DATA + Stringify(Printed(vs)(s));
    BeatText(s.heartbeats);
    UnlinesTwo(line);
    UnlinesConcat(BeatLines(s.heartbeats), [line, []]);
    assert FrameLines()(FrameOf(vs)(s)) == BeatLines(s.heartbeats) + [line, []];
  }

  /** A printed event decodes to itself. */
  lemma PrintedDecodes(vs: Validators, v: Json)
    requires vs.Valid() && StreamEvent(vs, v).Some?
    ensures EventOf(vs, Stringify(StreamEvent(vs, v).value)) == StreamEvent(vs, v)
    ensures IsTerminal(StreamEvent(vs, v).value) <==> IsTerminal(v)
  {
    StreamEventWellFormed(vs, v);
    StringifyRoundTrip(vs.numerals, StreamEvent(vs, v).value);
    StreamEventRebuilds(vs, v);
  }

  lemma PrintableUnbroken(s: Text)
    requires Printable(s)
    ensures Unbroken(s)
  {
  }

  lemma BeatsFrame(n: nat, data: Text)
    requires Unbroken(data)
    ensures IsFrame(Frame(BeatLines(n), data, []))
  {
    BeatText(n);
    assert IsComment(KEEP_ALIVE);
  }

  /** The text of an event that can be sent: unbroken, and within the bound with its field name. */
  lemma EventText(vs: Validators, v: Json, e: Json)
    requires vs.Valid() && StreamEvent(vs, v) == Some(e)
    ensures Unbroken(Stringify(e)) && |DATA + Stringify(e)| <= LINE_MAX_UNITS
  {
    EventLine(vs, v);
    StreamEventWellFormed(vs, v);
    StringifyPrintable(vs.numerals, e);
    PrintableUnbroken(Stringify(e));
  }

  lemma FrameIs(vs: Validators, s: Sent, e: Json)
    requires StreamEvent(vs, s.event) == Some(e)
    ensures FrameOf(vs)(s) == Frame(BeatLines(s.heartbeats), Stringify(e), [])
  {
    assert Printed(vs)(s) == e;
  }

  lemma FormatIs(vs: Validators, v: Json) returns (e: Json)
    requires Format(vs, v).Some?
    ensures StreamEvent(vs, v) == Some(e)
  {
    e := StreamEvent(vs, v).value;
  }

  lemma SentFrame(vs: Validators, s: Sent)
    requires vs.Valid() && Format(vs, s.event).Some?
    ensures IsFrame(FrameOf(vs)(s))
  {
    var e := FormatIs(vs, s.event);
    EventText(vs, s.event, e);
    FrameIs(vs, s, e);
    BeatsFrame(s.heartbeats, Stringify(e));
  }

  lemma SentEvent(vs: Validators, s: Sent)
    requires vs.Valid() && Format(vs, s.event).Some?
    ensures EventOf(vs, FrameOf(vs)(s).data) == Some(Printed(vs)(s))
    ensures IsTerminal(Printed(vs)(s)) <==> IsTerminal(s.event)
  {
    PrintedDecodes(vs, s.event);
  }

  lemma BeatsFit(n: nat, line: Text)
    requires |line| <= LINE_MAX_UNITS
    ensures LinesFit(BeatLines(n) + [line, []])
  {
    BeatText(n);
    var lines := BeatLines(n) + [line, []];
    forall i | 0 <= i < |lines| ensures |lines[i]| <= LINE_MAX_UNITS {
      if i < |BeatLines(n)| { assert lines[i] == BeatLines(n)[i]; }
    }
  }

  lemma FrameFits(vs: Validators, s: Sent)
    requires vs.Valid() && Format(vs, s.event).Some?
    ensures LinesFit(FrameLines()(FrameOf(vs)(s)))
  {
    var e := FormatIs(vs, s.event);
    EventText(vs, s.event, e);
    FrameIs(vs, s, e);
    BeatsFit(s.heartbeats, DATA + Stringify(e));
    PlainFrame(BeatLines(s.heartbeats), Stringify(e));
  }

  lemma PlainFrame(before: seq<Text>, data: Text)
    ensures FrameLines()(Frame(before, data, [])) == before + [DATA + data, []]
  {
  }

  // ---------------------------------------------------------------- a whole stream

  lemma {:induction false} AllFormat(vs: Validators, sent: seq<Sent>)
    requires Sendable(vs, sent)
    ensures forall i :: 0 <= i < |sent| ==> Format(vs, sent[i].event).Some?
  {
    if !IsTerminal(sent[0].event) {
      AllFormat(vs, sent[1..]);
      forall i | 0 <= i < |sent| ensures Format(vs, sent[i].event).Some? {
        if i > 0 { assert sent[i] == sent[1..][i - 1]; }
      }
    }
  }

  lemma {:induction false} SentFrames(vs: Validators, sent: seq<Sent>)
    requires vs.Valid() && Sendable(vs, sent)
    ensures WellFramed(vs, Map(FrameOf(vs), sent))
  {
    var frames := Map(FrameOf(vs), sent);
    SentFrame(vs, sent[0]);
    SentEvent(vs, sent[0]);
    assert frames[1..] == Map(FrameOf(vs), sent[1..]);
    if !IsTerminal(sent[0].event) { SentFrames(vs, sent[1..]); }
  }

  lemma {:induction false} SentEvents(vs: Validators, sent: seq<Sent>)
    requires vs.Valid() && Sendable(vs, sent)
    ensures Map(FrameEvent(vs), Map(FrameOf(vs), sent)) == Map(Printed(vs), sent)
  {
    var frames := Map(FrameOf(vs), sent);
    SentEvent(vs, sent[0]);
    assert frames[1..] == Map(FrameOf(vs), sent[1..]);
    if IsTerminal(sent[0].event) {
      assert Map(FrameEvent(vs), frames[1..]) == [] && Map(Printed(vs), sent[1..]) == [];
    } else {
      SentEvents(vs, sent[1..]);
    }
  }

  lemma {:induction false} SentLines(vs: Validators, sent: seq<Sent>)
    requires vs.Valid() && forall i :: 0 <= i < |sent| ==> Format(vs, sent[i].event).Some?
    ensures Unlines(FlatMap(FrameLines(), Map(FrameOf(vs), sent))) == SentText(vs, sent)
    ensures LinesFit(FlatMap(FrameLines(), Map(FrameOf(vs), sent)))
  {
    if sent != [] {
      var head, later := FrameLines()(FrameOf(vs)(sent[0])), FlatMap(FrameLines(), Map(FrameOf(vs), sent[1..]));
      SentLines(vs, sent[1..]);
      FrameText(vs, sent[0]);
      FrameFits(vs, sent[0]);
      UnlinesConcat(head, later);
      assert Map(FrameOf(vs), sent)[1..] == Map(FrameOf(vs), sent[1..]);
      assert FlatMap(FrameLines(), Map(FrameOf(vs), sent)) == head + later;
    }
  }

  lemma NoBlanks(frames: seq<Frame>)
    ensures StreamLines(frames, 0) == FlatMap(FrameLines(), frames)
  {
  }

  lemma FramedFits(vs: Validators, frames: seq<Frame>, text: Text)
    requires WellFramed(vs, frames) && text == Unlines(FlatMap(FrameLines(), frames))
    requires LinesFit(FlatMap(FrameLines(), frames))
    ensures Fits(text) && Whole(vs, text) == Some(Map(FrameEvent(vs), frames))
  {
    NoBlanks(frames);
    FramesDecode(vs, frames, 0);
  }

  /**
   * Any step events and one terminal event, with any number of heartbeats
   * between them, formatted, joined and cut into any chunks, decode to the
   * same events, and the end accepts.
   */
  lemma StreamRoundTrip(vs: Validators, sent: seq<Sent>, chunks: seq<Text>)
    requires vs.Valid() && Sendable(vs, sent)
    requires Concat(chunks) == SentText(vs, sent)
    ensures Decoded(vs, chunks) == Some(Map(Printed(vs), sent))
  {
    AllFormat(vs, sent);
    SentFrames(vs, sent);
    SentLines(vs, sent);
    FramedFits(vs, Map(FrameOf(vs), sent), Concat(chunks));
    SentEvents(vs, sent);
    FittingDecodes(vs, chunks);
  }

  /** A comment over the bound before a valid stream: accepted in one push, refused in some two. */
  lemma LongCommentDependsOnCutting(vs: Validators, last: Json) returns (text: Text, chunks: seq<Text>)
    requires vs.Valid() && Format(vs, last).Some? && IsTerminal(last)
    ensures Concat(chunks) == text && |chunks| == 2
    ensures Decoded(vs, [text]) == Some([StreamEvent(vs, last).value]) && Decoded(vs, chunks).None?
  {
    var comment := seq(LINE_MAX_UNITS + 1, i => COMMENT);
    var s := Sent(0, last);
    var frame := FrameOf(vs)(s).(before := [comment]);
    SentFrame(vs, s);
    SentEvent(vs, s);
    assert IsComment(comment);
    assert [frame][1..] == [];
    assert WellFramed(vs, [frame]);
    FramesDecode(vs, [frame], 0);
    text := Unlines(StreamLines([frame], 0));
    StreamHead([frame], 0);
    assert Lines(text)[0] == comment;
    assert Map(FrameEvent(vs), [frame]) == [StreamEvent(vs, last).value];
    OnePush(vs, text);
    chunks := LongLineRefused(vs, text, 0);
  }
}
