/** Exactly when the cutting of a stream into chunks shows in what the decoder returns. */
module AskChunks {
  import opened Wrappers
  import opened Json
  import opened AskEvents
  import opened AskDecoder

  // ---------------------------------------------------------------- lines of a concatenation

  lemma {:induction false} NewlineConcat(a: Text, b: Text)
    ensures NewlineAt(a + b) == if NewlineAt(a) < |a| then NewlineAt(a) else |a| + NewlineAt(b)
  {
    if a == [] {
      assert a + b == b;
    } else if a[0] != NEWLINE {
      assert (a + b)[1..] == a[1..] + b;
      NewlineConcat(a[1..], b);
    }
  }

  lemma FirstLine(s: Text, n: nat)
    requires NewlineAt(s) == n < |s|
    ensures Lines(s) == [s[..n]] + Lines(s[n + 1..]) && Rest(s) == Rest(s[n + 1..])
  {
  }

  lemma SameFirstLine(a: Text, b: Text, n: nat)
    requires NewlineAt(a) == n < |a|
    ensures NewlineAt(a + b) == n && (a + b)[..n] == a[..n] && (a + b)[n + 1..] == a[n + 1..] + b
  {
    NewlineConcat(a, b);
  }

  /** The lines of two texts joined are those of the first, then those of what it left over and the second. */
  lemma {:induction false} LinesConcat(a: Text, b: Text)
    ensures Lines(a + b) == Lines(a) + Lines(Rest(a) + b)
    ensures Rest(a + b) == Rest(Rest(a) + b)
    decreases |a|
  {
    var n := NewlineAt(a);
    if n < |a| {
      var later := a[n + 1..];
      LinesConcat(later, b);
      LineInFront(a, b, n, later);
    }
  }

  lemma LineInFront(a: Text, b: Text, n: nat, later: Text)
    requires NewlineAt(a) == n < |a| && later == a[n + 1..]
    requires Lines(later + b) == Lines(later) + Lines(Rest(later) + b)
    requires Rest(later + b) == Rest(Rest(later) + b)
    ensures Lines(a + b) == Lines(a) + Lines(Rest(a) + b) && Rest(a + b) == Rest(Rest(a) + b)
  {
    FirstLine(a, n);
    SameFirstLine(a, b, n);
    FirstLine(a + b, n);
    JoinLines([a[..n]], Lines(later), Lines(Rest(later) + b));
  }

  lemma JoinLines(x: seq<Text>, l: seq<Text>, m: seq<Text>)
    ensures (x + l) + m == x + (l + m)
  {
  }

  lemma {:induction false} RunConcat(vs: Validators, s: State, a: seq<Text>, b: seq<Text>)
    ensures var first := Run(vs, s, a);
            first.None? ==> Run(vs, s, a + b).None?
    ensures var first := Run(vs, s, a);
            first.Some? ==> Run(vs, s, a + b) == After(first.value, Run(vs, first.value.state, b))
    decreases |a|
  {
    if a == [] {
      assert a + b == b;
      var more := Run(vs, s, b);
      if more.Some? { assert [] + more.value.events == more.value.events; }
    } else {
      assert (a + b)[0] == a[0] && (a + b)[1..] == a[1..] + b;
      var first := ReadLine(vs, s, a[0]);
      if first.Some? {
        RunConcat(vs, first.value.state, a[1..], b);
        var middle := Run(vs, first.value.state, a[1..]);
        if middle.Some? {
          RunJoins(first.value.events, middle.value.events, Run(vs, middle.value.state, b));
        }
      }
    }
  }

  function After(first: Ran, more: Option<Ran>): Option<Ran> {
    if more.None? then None else Some(Ran(more.value.state, first.events + more.value.events))
  }

  // ---------------------------------------------------------------- chunks

  /** After every chunk, the line that is still incomplete is within the bound. */
  predicate WithinBound(buffered: Text, chunks: seq<Text>)
    decreases |chunks|
  {
    chunks == []
    || (|Rest(buffered + chunks[0])| <= LINE_MAX_UNITS && WithinBound(Rest(buffered + chunks[0]), chunks[1..]))
  }

  lemma RunOfChunk(vs: Validators, s: State, buffered: Text, chunk: Text, rest: Text)
    ensures var all := buffered + chunk;
            var first := Run(vs, s, Lines(all));
            Run(vs, s, Lines(buffered + (chunk + rest)))
            == if first.None? then None else After(first.value, Run(vs, first.value.state, Lines(Rest(all) + rest)))
    ensures Rest(buffered + (chunk + rest)) == Rest(Rest(buffered + chunk) + rest)
  {
    var all := buffered + chunk;
    assert buffered + (chunk + rest) == all + rest;
    LinesConcat(all, rest);
    RunConcat(vs, s, Lines(all), Lines(Rest(all) + rest));
  }

  /** Pushing chunk by chunk is running the lines of the whole, refused where an incomplete line passes the bound. */
  lemma {:induction false} FedByLines(vs: Validators, buffered: Text, s: State, chunks: seq<Text>)
    requires NewlineAt(buffered) == |buffered|
    ensures var all := buffered + Concat(chunks);
            var ran := Run(vs, s, Lines(all));
            FedAll(vs, Decoding(buffered, s), chunks)
            == if ran.None? || !WithinBound(buffered, chunks) then None
            else Some(Step(Decoding(Rest(all), ran.value.state), ran.value.events))
    decreases |chunks|
  {
    if chunks == [] {
      assert buffered + Concat(chunks) == buffered;
    } else {
      RunOfChunk(vs, s, buffered, chunks[0], Concat(chunks[1..]));
      var first := Fed(vs, Decoding(buffered, s), chunks[0]);
      if first.Some? {
        FedByLines(vs, Rest(buffered + chunks[0]), first.value.decoding.state, chunks[1..]);
      }
    }
  }

  /**
   * What decoding returns depends on the text alone, except that it is refused
   * when some push leaves an incomplete line over the bound.
   */
  lemma DecodedIsWhole(vs: Validators, chunks: seq<Text>)
    ensures Decoded(vs, chunks) == if WithinBound([], chunks) then Whole(vs, Concat(chunks)) else None
  {
    FedByLines(vs, [], START, chunks);
    assert [] + Concat(chunks) == Concat(chunks);
  }

  // ---------------------------------------------------------------- lines that fit

  predicate Fits(text: Text) {
    |Rest(text)| <= LINE_MAX_UNITS && LinesFit(Lines(text))
  }

  predicate LinesFit(lines: seq<Text>) { forall i :: 0 <= i < |lines| ==> |lines[i]| <= LINE_MAX_UNITS }

  lemma LastLinesFit(a: seq<Text>, b: seq<Text>)
    requires LinesFit(a + b)
    ensures LinesFit(b)
  {
    forall i | 0 <= i < |b| ensures |b[i]| <= LINE_MAX_UNITS { assert (a + b)[|a| + i] == b[i]; }
  }

  lemma StartFits(r: Text, b: Text)
    requires NewlineAt(r) == |r| && Fits(r + b)
    ensures |r| <= LINE_MAX_UNITS
  {
    NewlineConcat(r, b);
    var n := NewlineAt(r + b);
    if n < |r + b| { assert Lines(r + b)[0] == (r + b)[..n]; }
  }

  /** An incomplete line is the start of a line of the finished text. */
  lemma RestFits(a: Text, b: Text)
    requires Fits(a + b)
    ensures |Rest(a)| <= LINE_MAX_UNITS && Fits(Rest(a) + b)
  {
    LinesConcat(a, b);
    LastLinesFit(Lines(a), Lines(Rest(a) + b));
    StartFits(Rest(a), b);
  }

  lemma {:induction false} FittingIsWithin(buffered: Text, chunks: seq<Text>)
    requires Fits(buffered + Concat(chunks))
    ensures WithinBound(buffered, chunks)
    decreases |chunks|
  {
    if chunks != [] {
      var rest := Concat(chunks[1..]);
      assert buffered + Concat(chunks) == (buffered + chunks[0]) + rest;
      RestFits(buffered + chunks[0], rest);
      FittingIsWithin(Rest(buffered + chunks[0]), chunks[1..]);
    }
  }

  lemma AfterFirstLine(text: Text, n: nat, e: nat, later: Text)
    requires NewlineAt(text) == n < |text| && n + 1 + e <= |text| && later == text[n + 1..]
    ensures Rest(text[..n + 1 + e]) == Rest(later[..e])
  {
    var prefix := text[..n + 1 + e];
    assert prefix[..n] == text[..n] && prefix[n] == NEWLINE;
    FirstNewline(prefix, n);
    assert prefix[n + 1..] == later[..e];
  }

  lemma HasNewline(text: Text)
    requires Lines(text) != []
    ensures NewlineAt(text) < |text|
  {
  }

  /** Where line `k` of a text ends. */
  lemma {:induction false} LineEnds(text: Text, k: nat) returns (end: nat)
    requires k < |Lines(text)|
    ensures end < |text| && Rest(text[..end]) == Lines(text)[k]
    decreases |text|
  {
    var n := NewlineAt(text);
    HasNewline(text);
    if k == 0 {
      end := n;
      LineZero(text, n);
    } else {
      var later := text[n + 1..];
      LaterLine(text, n, k, later);
      var e := LineEnds(later, k - 1);
      end := n + 1 + e;
      AfterFirstLine(text, n, e, later);
    }
  }

  lemma LineZero(text: Text, n: nat)
    requires NewlineAt(text) == n < |text|
    ensures Rest(text[..n]) == Lines(text)[0]
  {
    FirstLine(text, n);
    NoNewline(text[..n]);
  }

  lemma LaterLine(text: Text, n: nat, k: nat, later: Text)
    requires NewlineAt(text) == n < |text| && 0 < k < |Lines(text)| && later == text[n + 1..]
    ensures k - 1 < |Lines(later)| && Lines(text)[k] == Lines(later)[k - 1]
  {
    FirstLine(text, n);
  }

  lemma {:induction false} NoNewline(s: Text)
    requires forall i :: 0 <= i < |s| ==> s[i] != NEWLINE
    ensures NewlineAt(s) == |s| && Rest(s) == s && Lines(s) == []
  {
  }

  lemma FirstNewline(s: Text, n: nat)
    requires n < |s| && s[n] == NEWLINE && forall i :: 0 <= i < n ==> s[i] != NEWLINE
    ensures NewlineAt(s) == n
  {
  }

  lemma TwoChunks(a: Text, b: Text)
    ensures Concat([a, b]) == a + b && Concat([a]) == a
  {
    assert [a, b][1..] == [b] && [b][1..] == [] && [a][1..] == [];
    assert Concat([b]) == b + Concat([]);
    assert Concat([a]) == a + Concat([]);
  }

  lemma OnePush(vs: Validators, text: Text)
    requires Whole(vs, text).Some?
    ensures Decoded(vs, [text]) == Whole(vs, text)
  {
    TwoChunks(text, []);
    DecodedIsWhole(vs, [text]);
    assert [] + text == text && [text][1..] == [];
    assert WithinBound(Rest([] + text), [text][1..]);
  }

  lemma FittingDecodes(vs: Validators, chunks: seq<Text>)
    requires Fits(Concat(chunks))
    ensures Decoded(vs, chunks) == Whole(vs, Concat(chunks))
  {
    DecodedIsWhole(vs, chunks);
    assert [] + Concat(chunks) == Concat(chunks);
    FittingIsWithin([], chunks);
  }

  /** Cutting a stream at the end of an over-long line, before its line feed. */
  lemma LongLineRefused(vs: Validators, text: Text, k: nat) returns (chunks: seq<Text>)
    requires k < |Lines(text)| && |Lines(text)[k]| > LINE_MAX_UNITS
    ensures Concat(chunks) == text && |chunks| == 2 && Decoded(vs, chunks).None?
  {
    var end := LineEnds(text, k);
    var a, b := text[..end], text[end..];
    chunks := [a, b];
    TwoChunks(a, b);
    LongStart(a, b);
    DecodedIsWhole(vs, chunks);
  }

  lemma LongStart(a: Text, b: Text)
    requires |Rest(a)| > LINE_MAX_UNITS
    ensures !WithinBound([], [a, b])
  {
    assert [] + a == a;
  }

  /**
   * A stream that decodes in one push decodes under every cutting exactly when
   * all its lines fit the bound: an over-long line passes while its line feed
   * comes in the same push, and is refused when a push ends inside it.
   */
  lemma CuttingShowsOnlyInLongLines(vs: Validators, text: Text)
    requires Whole(vs, text).Some?
    ensures Fits(text) <==> forall chunks :: Concat(chunks) == text ==> Decoded(vs, chunks) == Whole(vs, text)
    ensures Decoded(vs, [text]) == Whole(vs, text)
  {
    OnePush(vs, text);
    if Fits(text) {
      forall chunks | Concat(chunks) == text ensures Decoded(vs, chunks) == Whole(vs, text) {
        FittingDecodes(vs, chunks);
      }
    } else {
      var k :| 0 <= k < |Lines(text)| && |Lines(text)[k]| > LINE_MAX_UNITS;
      var chunks := LongLineRefused(vs, text, k);
      assert Decoded(vs, chunks) != Whole(vs, text);
    }
  }
}
