/** The incremental decoder of the Ask progress stream. */
module AskDecoder {
  import opened Wrappers
  import opened Json
  import opened JsonParser
  import opened AskEvents

  const COMMENT: nat := 0x3a

  // ---------------------------------------------------------------- lines

  /** indexOf of the first line feed, or the length of the text. */
  function NewlineAt(s: Text): (n: nat)
    ensures n <= |s| && (n < |s| ==> s[n] == NEWLINE)
    ensures forall i :: 0 <= i < n ==> s[i] != NEWLINE
  {
    if s == [] || s[0] == NEWLINE then 0 else 1 + NewlineAt(s[1..])
  }

  /** The lines that are complete. */
  function Lines(s: Text): seq<Text>
    decreases |s|
  {
    var n := NewlineAt(s);
    if n == |s| then [] else [s[..n]] + Lines(s[n + 1..])
  }

  /** What follows the last complete line. */
  function Rest(s: Text): (r: Text)
    ensures NewlineAt(r) == |r|
    decreases |s|
  {
    var n := NewlineAt(s);
    if n == |s| then s else Rest(s[n + 1..])
  }

  function Unlines(lines: seq<Text>): Text {
    if lines == [] then [] else lines[0] + [NEWLINE] + Unlines(lines[1..])
  }

  // ---------------------------------------------------------------- one line

  datatype State = State(data: Option<Text>, terminal: bool)

  datatype Ran = Ran(state: State, events: seq<Json>)

  const START := State(None, false)

  /** The event a pending data line holds. */
  function EventOf(vs: Validators, data: Text): Option<Json> {
    var parsed := Parse(vs.numerals, data);
    if parsed.None? then None else StreamEvent(vs, parsed.value)
  }

  function ReadLine(vs: Validators, s: State, text: Text): Option<Ran> {
    if RETURN in text then None
    else if text == [] then
      if s.data.None? then Some(Ran(s, []))
      else
        var event := EventOf(vs, s.data.value);
        if event.None? then None
        else Some(Ran(State(None, s.terminal || IsTerminal(event.value)), [event.value]))
    else if s.terminal then None
    else if text[0] == COMMENT then Some(Ran(s, []))
    else if !(DATA <= text) || s.data.Some? then None
    else Some(Ran(State(Some(text[|DATA|..]), s.terminal), []))
  }

  function Run(vs: Validators, s: State, lines: seq<Text>): Option<Ran>
    decreases |lines|
  {
    if lines == [] then Some(Ran(s, []))
    else
      var first := ReadLine(vs, s, lines[0]);
      if first.None? then None
      else
        var more := Run(vs, first.value.state, lines[1..]);
        if more.None? then None else Some(Ran(more.value.state, first.value.events + more.value.events))
  }

  // ---------------------------------------------------------------- the decoder

  /** createPersonAskProgressDecoderV3; nothing is promised of it after a refusal. */
  class Decoder {
    const vs: Validators
    var buffered: Text
    var data: Option<Text>
    var terminal: bool

    constructor (vs: Validators)
      ensures this.vs == vs && buffered == [] && Current() == START
    {
      this.vs := vs;
      buffered := [];
      data := None;
      terminal := false;
    }

    function Current(): State
      reads this
    {
      State(data, terminal)
    }

    method Line(text: Text) returns (events: Option<seq<Json>>)
      modifies this`data, this`terminal
      ensures events.Some? <==> ReadLine(vs, old(Current()), text).Some?
      ensures events.Some? ==> Ran(Current(), events.value) == ReadLine(vs, old(Current()), text).value
    {
      if RETURN in text { return None; }
      if text == [] {
        if data.None? { return Some([]); }
        var parsed := Parse(vs.numerals, data.value);
        if parsed.None? { return None; }
        data := None;
        var event := StreamEvent(vs, parsed.value);
        if event.None? { return None; }
        if IsTerminal(event.value) { terminal := true; }
        return Some([event.value]);
      }
      if terminal { return None; }
      if text[0] == COMMENT { return Some([]); }
      if !(DATA <= text) || data.Some? { return None; }
      data := Some(text[|DATA|..]);
      return Some([]);
    }

    method Push(text: Text) returns (events: Option<seq<Json>>)
      modifies this
      ensures events.Some? <==> Fed(vs, Decoding(old(buffered), old(Current())), text).Some?
      ensures events.Some? ==>
                Fed(vs, Decoding(old(buffered), old(Current())), text)
                == Some(Step(Decoding(buffered, Current()), events.value))
    {
      var found: seq<Json> := [];
      buffered := buffered + text;
      ghost var all, start := buffered, Current();
      var newline := NewlineAt(buffered);
      ghost var whole := Run(vs, start, Lines(all));
      if whole.Some? { assert found + whole.value.events == whole.value.events; }
      while newline < |buffered|
        invariant newline == NewlineAt(buffered) && Rest(buffered) == Rest(all)
        invariant var more := Run(vs, Current(), Lines(buffered));
                  Run(vs, start, Lines(all)) == if more.None? then None else Some(Ran(more.value.state, found + more.value.events))
        decreases |buffered|
      {
        var line := buffered[..newline];
        ghost var later := Lines(buffered[newline + 1..]);
        assert Lines(buffered) == [line] + later;
        var more := Line(line);
        if more.None? { return None; }
        assert found + (more.value + []) == (found + more.value) + [];
        RunJoins(found, more.value, Run(vs, Current(), later));
        found := found + more.value;
        buffered := buffered[newline + 1..];
        newline := NewlineAt(buffered);
      }
      assert found + [] == found;
      if |buffered| > LINE_MAX_UNITS { return None; }
      return Some(found);
    }

    method End() returns (ok: bool)
      ensures ok <==> buffered == [] && Current() == State(None, true)
    {
      return buffered == [] && data.None? && terminal;
    }
  }

  lemma RunJoins(a: seq<Json>, b: seq<Json>, more: Option<Ran>)
    ensures more.Some? ==> a + (b + more.value.events) == (a + b) + more.value.events
  {
  }

  // ---------------------------------------------------------------- chunks

  datatype Decoding = Decoding(buffered: Text, state: State)

  datatype Step = Step(decoding: Decoding, events: seq<Json>)

  /** One push: all lines that are now complete, then the bound on what is left. */
  function Fed(vs: Validators, d: Decoding, text: Text): Option<Step> {
    var all := d.buffered + text;
    var ran := Run(vs, d.state, Lines(all));
    if ran.None? || |Rest(all)| > LINE_MAX_UNITS then None
    else Some(Step(Decoding(Rest(all), ran.value.state), ran.value.events))
  }

  function Concat(chunks: seq<Text>): Text {
    if chunks == [] then [] else chunks[0] + Concat(chunks[1..])
  }

  function FedAll(vs: Validators, d: Decoding, chunks: seq<Text>): Option<Step>
    decreases |chunks|
  {
    if chunks == [] then Some(Step(d, []))
    else
      var first := Fed(vs, d, chunks[0]);
      if first.None? then None
      else
        var more := FedAll(vs, first.value.decoding, chunks[1..]);
        if more.None? then None else Some(Step(more.value.decoding, first.value.events + more.value.events))
  }

  /** The events of a stream cut into `chunks`, if no push and not the end refuses. */
  function Decoded(vs: Validators, chunks: seq<Text>): Option<seq<Json>> {
    var fed := FedAll(vs, Decoding([], START), chunks);
    if fed.Some? && fed.value.decoding == Decoding([], State(None, true)) then Some(fed.value.events) else None
  }

  /** The events of a text by its lines alone. */
  function Whole(vs: Validators, text: Text): Option<seq<Json>> {
    var ran := Run(vs, START, Lines(text));
    if ran.Some? && ran.value.state == State(None, true) && Rest(text) == [] then Some(ran.value.events) else None
  }

  /** A client's use of the decoder: a push for every chunk, then the end. */
  method Decode(vs: Validators, chunks: seq<Text>) returns (events: Option<seq<Json>>)
    ensures events == Decoded(vs, chunks)
  {
    var decoder := new Decoder(vs);
    var found: seq<Json> := [];
    ghost var start := Decoding([], START);
    assert chunks[0..] == chunks;
    if FedAll(vs, start, chunks).Some? {
      assert found + FedAll(vs, start, chunks).value.events == FedAll(vs, start, chunks).value.events;
    }
    for i := 0 to |chunks|
      invariant decoder.vs == vs
      invariant var more := FedAll(vs, Decoding(decoder.buffered, decoder.Current()), chunks[i..]);
                FedAll(vs, start, chunks) == if more.None? then None else Some(Step(more.value.decoding, found + more.value.events))
    {
      var pushed := decoder.Push(chunks[i]);
      assert chunks[i..][1..] == chunks[i + 1..];
      if pushed.None? { return None; }
      ghost var more := FedAll(vs, Decoding(decoder.buffered, decoder.Current()), chunks[i + 1..]);
      if more.Some? { assert found + (pushed.value + more.value.events) == (found + pushed.value) + more.value.events; }
      found := found + pushed.value;
    }
    assert found + [] == found;
    var ok := decoder.End();
    return if ok then Some(found) else None;
  }
}
