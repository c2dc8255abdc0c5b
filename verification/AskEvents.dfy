/** Ask progress events: which are sent, how one is framed, and why its line stays under the line bound. */
module AskEvents {
  import opened Wrappers
  import opened Sequences
  import opened Json
  import opened JsonParser
  import opened Utf8
  import opened Whitespace

  const NEWLINE: nat := 0x0a
  const RETURN: nat := 0x0d

  const EVENT_MAX_BYTES := 192 * 1024
  const LINE_MAX_UNITS := 256 * 1024

  /** "data: " */
  const DATA: Text := [0x64, 0x61, 0x74, 0x61, 0x3a, 0x20]

  const TYPE: Text := [0x74, 0x79, 0x70, 0x65]
  const ANSWER: Text := [0x61, 0x6e, 0x73, 0x77, 0x65, 0x72]
  const ERROR: Text := [0x65, 0x72, 0x72, 0x6f, 0x72]
  const RESPONSE: Text := [0x72, 0x65, 0x73, 0x70, 0x6f, 0x6e, 0x73, 0x65]
  const RECEIPT: Text := [0x72, 0x65, 0x63, 0x65, 0x69, 0x70, 0x74]
  const STATUS: Text := [0x73, 0x74, 0x61, 0x74, 0x75, 0x73]
  const CODE: Text := [0x63, 0x6f, 0x64, 0x65]
  const MESSAGE: Text := [0x6d, 0x65, 0x73, 0x73, 0x61, 0x67, 0x65]

  /** 400, 401, 404, 409, 429, 500, 502, 503. */
  const STATUSES: set<Text> := {
    [0x34, 0x30, 0x30], [0x34, 0x30, 0x31], [0x34, 0x30, 0x34], [0x34, 0x30, 0x39],
    [0x34, 0x32, 0x39], [0x35, 0x30, 0x30], [0x35, 0x30, 0x32], [0x35, 0x30, 0x33]}

  const ERROR_CODE_MAX := 100
  const ERROR_MESSAGE_MAX := 1000

  // ---------------------------------------------------------------- fields

  function Field(members: seq<Member>, key: Text): Option<Json> {
    if members == [] then None
    else if members[0].key == key then Some(members[0].value)
    else Field(members[1..], key)
  }

  predicate HasKeys(v: Json, keys: set<Text>) {
    v.Object? && |v.members| == |keys| && forall k :: k in keys ==> Field(v.members, k).Some?
  }

  function FieldOf(v: Json, key: Text): Json
    requires v.Object? && Field(v.members, key).Some?
  {
    Field(v.members, key).value
  }

  // ---------------------------------------------------------------- validation

  /**
   * The validators of what an event carries: a step event, an answer and its
   * receipt. Each returns a rebuilt value that it accepts unchanged.
   */
  datatype Validators = Validators(
    numerals: Numerals,
    step: Json -> Option<Json>,
    response: Json -> Option<Json>,
    receipt: Json -> Option<Json>)
  {
    ghost predicate Valid() {
      numerals.Valid()
      && (forall t :: t in STATUSES ==> numerals.normal(t) == Some(t))
      && Rebuilds(numerals, step) && Rebuilds(numerals, response) && Rebuilds(numerals, receipt)
      && forall v :: step(v).Some? ==> !IsTerminal(step(v).value) && step(v).value.Object?
    }
  }

  ghost predicate Rebuilds(numerals: Numerals, f: Json -> Option<Json>) {
    forall v :: f(v).Some? ==> WellFormed(numerals, f(v).value) && f(f(v).value) == f(v)
  }

  function TypeOf(v: Json): Option<Json> { if v.Object? then Field(v.members, TYPE) else None }

  predicate IsAnswer(v: Json) { TypeOf(v) == Some(String(ANSWER)) }
  predicate IsError(v: Json) { TypeOf(v) == Some(String(ERROR)) }
  predicate IsTerminal(v: Json) { IsAnswer(v) || IsError(v) }

  predicate IsBoundedString(s: Text, maximum: nat) {
    0 < |s| <= maximum && !IsTrimmed(s[0]) && !IsTrimmed(s[|s| - 1])
    && forall i :: 0 <= i < |s| ==> s[i] >= 0x20 && s[i] != 0x7f
  }

  predicate IsLower(c: nat) { 0x61 <= c <= 0x7a }

  predicate IsErrorCode(s: Text) {
    IsBoundedString(s, ERROR_CODE_MAX) && IsLower(s[0])
    && forall i :: 0 <= i < |s| ==> IsLower(s[i]) || Digit(s[i]) || s[i] == 0x5f
  }

  /** validateOrganizationApiError, of the error inside its envelope. */
  function ApiError(v: Json): Option<Json> {
    if !HasKeys(v, {CODE, MESSAGE}) then None
    else
      var code, message := FieldOf(v, CODE), FieldOf(v, MESSAGE);
      if code.String? && IsErrorCode(code.s) && message.String? && IsBoundedString(message.s, ERROR_MESSAGE_MAX)
      then Some(ErrorBody(code.s, message.s)) else None
  }

  function ErrorBody(code: Text, message: Text): Json {
    Object([Member(CODE, String(code)), Member(MESSAGE, String(message))])
  }

  function ErrorEvent(status: Text, error: Json): Json {
    Object([Member(TYPE, String(ERROR)), Member(STATUS, Number(status)), Member(ERROR, error)])
  }

  function AnswerEvent(response: Json, receipt: Json): Json {
    Object([Member(TYPE, String(ANSWER)), Member(RESPONSE, response), Member(RECEIPT, receipt)])
  }

  /** bounded: the canonical bytes of an event, where they exist. */
  function Bounded(v: Json): Option<Json> {
    var text := CanonicalJson(v);
    if text.Some? && ByteLength(text.value) <= EVENT_MAX_BYTES then Some(v) else None
  }

  /** streamEvent: any one event, rebuilt; an error event has no byte bound. */
  function StreamEvent(vs: Validators, v: Json): Option<Json> {
    if !v.Object? then None
    else if IsAnswer(v) then
      if !HasKeys(v, {TYPE, RESPONSE, RECEIPT}) then None
      else
        var response, receipt := vs.response(FieldOf(v, RESPONSE)), vs.receipt(FieldOf(v, RECEIPT));
        if response.None? || receipt.None? then None else Bounded(AnswerEvent(response.value, receipt.value))
    else if IsError(v) then
      if !HasKeys(v, {TYPE, STATUS, ERROR}) then None
      else
        var status, error := FieldOf(v, STATUS), ApiError(FieldOf(v, ERROR));
        if !status.Number? || status.token !in STATUSES || error.None? then None
        else Some(ErrorEvent(status.token, error.value))
    else
      var step := vs.step(v);
      if step.None? then None else Bounded(step.value)
  }

  /** formatPersonAskProgressEventV3. */
  function Format(vs: Validators, event: Json): Option<Text> {
    var e := StreamEvent(vs, event);
    if e.None? then None else Some(DATA + Stringify(e.value) + [NEWLINE, NEWLINE])
  }

  // ---------------------------------------------------------------- rebuilding

  lemma ThreeFields(a: Member, b: Member, c: Member)
    requires a.key != b.key && a.key != c.key && b.key != c.key
    ensures Field([a, b, c], a.key) == Some(a.value)
    ensures Field([a, b, c], b.key) == Some(b.value)
    ensures Field([a, b, c], c.key) == Some(c.value)
    ensures HasKeys(Object([a, b, c]), {a.key, b.key, c.key})
  {
    assert [a, b, c][1..] == [b, c] && [b, c][1..] == [c];
    assert Field([c], c.key) == Some(c.value) && Field([b, c], c.key) == Some(c.value);
    assert |{a.key, b.key, c.key}| == 3;
  }

  lemma TwoFields(a: Member, b: Member)
    requires a.key != b.key
    ensures Field([a, b], a.key) == Some(a.value) && Field([a, b], b.key) == Some(b.value)
    ensures HasKeys(Object([a, b]), {a.key, b.key})
  {
    assert [a, b][1..] == [b];
    assert |{a.key, b.key}| == 2;
  }

  lemma KeysDiffer()
    ensures TYPE != RESPONSE && TYPE != RECEIPT && RESPONSE != RECEIPT
    ensures TYPE != STATUS && TYPE != ERROR && STATUS != ERROR && CODE != MESSAGE && ANSWER != ERROR
  {
    assert TYPE[0] == 0x74 && RESPONSE[0] == 0x72 && ERROR[0] == 0x65 && STATUS[0] == 0x73 && CODE[0] == 0x63 && ANSWER[0] == 0x61;
    assert |RESPONSE| == 8 && |RECEIPT| == 7 && |MESSAGE| == 7 && |CODE| == 4;
  }

  lemma AnswerFields(response: Json, receipt: Json)
    ensures var e := AnswerEvent(response, receipt);
            HasKeys(e, {TYPE, RESPONSE, RECEIPT}) && IsAnswer(e) && !IsError(e)
            && FieldOf(e, RESPONSE) == response && FieldOf(e, RECEIPT) == receipt
  {
    KeysDiffer();
    ThreeFields(Member(TYPE, String(ANSWER)), Member(RESPONSE, response), Member(RECEIPT, receipt));
  }

  lemma ErrorFields(status: Text, error: Json)
    ensures var e := ErrorEvent(status, error);
            HasKeys(e, {TYPE, STATUS, ERROR}) && IsError(e) && !IsAnswer(e)
            && FieldOf(e, STATUS) == Number(status) && FieldOf(e, ERROR) == error
  {
    KeysDiffer();
    ThreeFields(Member(TYPE, String(ERROR)), Member(STATUS, Number(status)), Member(ERROR, error));
  }

  lemma ApiErrorRebuilds(v: Json)
    requires ApiError(v).Some?
    ensures ApiError(ApiError(v).value) == ApiError(v)
  {
    var code, message := FieldOf(v, CODE).s, FieldOf(v, MESSAGE).s;
    KeysDiffer();
    TwoFields(Member(CODE, String(code)), Member(MESSAGE, String(message)));
  }

  lemma AnswerRebuilds(vs: Validators, v: Json)
    requires vs.Valid() && IsAnswer(v) && StreamEvent(vs, v).Some?
    ensures StreamEvent(vs, StreamEvent(vs, v).value) == StreamEvent(vs, v) && IsAnswer(StreamEvent(vs, v).value)
  {
    AnswerFields(vs.response(FieldOf(v, RESPONSE)).value, vs.receipt(FieldOf(v, RECEIPT)).value);
  }

  lemma ErrorRebuilds(vs: Validators, v: Json)
    requires vs.Valid() && IsError(v) && StreamEvent(vs, v).Some?
    ensures StreamEvent(vs, StreamEvent(vs, v).value) == StreamEvent(vs, v) && IsError(StreamEvent(vs, v).value)
  {
    ErrorFields(FieldOf(v, STATUS).token, ApiError(FieldOf(v, ERROR)).value);
    ApiErrorRebuilds(FieldOf(v, ERROR));
  }

  lemma StepRebuilds(vs: Validators, v: Json)
    requires vs.Valid() && !IsTerminal(v) && StreamEvent(vs, v).Some?
    ensures StreamEvent(vs, StreamEvent(vs, v).value) == StreamEvent(vs, v) && !IsTerminal(StreamEvent(vs, v).value)
  {
  }

  /** What streamEvent returns, it accepts as it stands: decoding a formatted event changes nothing. */
  lemma StreamEventRebuilds(vs: Validators, v: Json)
    requires vs.Valid() && StreamEvent(vs, v).Some?
    ensures StreamEvent(vs, StreamEvent(vs, v).value) == StreamEvent(vs, v)
    ensures IsTerminal(StreamEvent(vs, v).value) <==> IsTerminal(v)
  {
    if IsAnswer(v) {
      AnswerRebuilds(vs, v);
    } else if IsError(v) {
      ErrorRebuilds(vs, v);
    } else {
      StepRebuilds(vs, v);
    }
  }

  // ---------------------------------------------------------------- well-formed values

  lemma StatusIsNumber(t: Text)
    requires t in STATUSES
    ensures IsNumber(t) && |t| == 3
  {
    assert Digit(t[0]) && t[0] != 0x30 && Digit(t[1]) && Digit(t[2]);
    assert t[0..] == t && t[3..] == [] && t[1..][1..] == t[2..] && t[2..][1..] == [];
    assert DigitCount(t[2..]) == 1;
    assert DigitCount(t[1..]) == 2;
    assert DigitCount(t) == 3;
    assert TailLength(t[3..]) == Some(0);
  }

  lemma ThreeWellFormed(numerals: Numerals, a: Member, b: Member, c: Member)
    requires a.key != b.key && a.key != c.key && b.key != c.key
    requires WellFormed(numerals, a.value) && WellFormed(numerals, b.value) && WellFormed(numerals, c.value)
    ensures WellFormed(numerals, Object([a, b, c]))
  {
    assert [a, b, c][1..] == [b, c] && [b, c][1..] == [c] && [c][1..] == [];
    assert Map(Keys(), [a, b, c]) == [a.key, b.key, c.key];
    assert WellFormedMembers(numerals, [c]);
    assert WellFormedMembers(numerals, [b, c]);
  }

  lemma ErrorBodyWellFormed(numerals: Numerals, code: Text, message: Text)
    ensures WellFormed(numerals, ErrorBody(code, message))
  {
    var a, b := Member(CODE, String(code)), Member(MESSAGE, String(message));
    KeysDiffer();
    assert [a, b][1..] == [b] && [b][1..] == [];
    assert Map(Keys(), [a, b]) == [a.key, b.key];
    assert WellFormed(numerals, b.value) && WellFormedMembers(numerals, [b][1..]);
    assert WellFormedMembers(numerals, [b]);
  }

  lemma AnswerWellFormed(numerals: Numerals, response: Json, receipt: Json)
    requires WellFormed(numerals, response) && WellFormed(numerals, receipt)
    ensures WellFormed(numerals, AnswerEvent(response, receipt))
  {
    KeysDiffer();
    ThreeWellFormed(numerals, Member(TYPE, String(ANSWER)), Member(RESPONSE, response), Member(RECEIPT, receipt));
  }

  lemma ErrorWellFormed(numerals: Numerals, status: Text, error: Json)
    requires IsNumber(status) && numerals.normal(status) == Some(status) && WellFormed(numerals, error)
    ensures WellFormed(numerals, ErrorEvent(status, error))
  {
    KeysDiffer();
    ThreeWellFormed(numerals, Member(TYPE, String(ERROR)), Member(STATUS, Number(status)), Member(ERROR, error));
  }

  lemma ErrorEventWellFormed(vs: Validators, v: Json)
    requires vs.Valid() && IsError(v) && StreamEvent(vs, v).Some?
    ensures WellFormed(vs.numerals, StreamEvent(vs, v).value)
  {
    StatusIsNumber(FieldOf(v, STATUS).token);
    ErrorBodyWellFormed(vs.numerals, FieldOf(FieldOf(v, ERROR), CODE).s, FieldOf(FieldOf(v, ERROR), MESSAGE).s);
    ErrorWellFormed(vs.numerals, FieldOf(v, STATUS).token, ApiError(FieldOf(v, ERROR)).value);
  }

  lemma AnswerEventWellFormed(vs: Validators, v: Json)
    requires vs.Valid() && IsAnswer(v) && StreamEvent(vs, v).Some?
    ensures WellFormed(vs.numerals, StreamEvent(vs, v).value) && Bounded(StreamEvent(vs, v).value).Some?
  {
    AnswerWellFormed(vs.numerals, vs.response(FieldOf(v, RESPONSE)).value, vs.receipt(FieldOf(v, RECEIPT)).value);
  }

  lemma BoundedKeeps(v: Json, e: Json)
    requires Bounded(v) == Some(e)
    ensures e == v && Bounded(e).Some?
  {
  }

  lemma StepEventWellFormed(vs: Validators, v: Json)
    requires vs.Valid() && !IsTerminal(v) && StreamEvent(vs, v).Some?
    ensures WellFormed(vs.numerals, StreamEvent(vs, v).value) && Bounded(StreamEvent(vs, v).value).Some?
  {
    var step := vs.step(v).value;
    assert WellFormed(vs.numerals, step);
    BoundedKeeps(step, StreamEvent(vs, v).value);
  }

  lemma StreamEventWellFormed(vs: Validators, v: Json)
    requires vs.Valid() && StreamEvent(vs, v).Some?
    ensures WellFormed(vs.numerals, StreamEvent(vs, v).value)
    ensures !IsError(v) ==> Bounded(StreamEvent(vs, v).value).Some?
  {
    if IsError(v) {
      ErrorEventWellFormed(vs, v);
    } else if IsAnswer(v) {
      AnswerEventWellFormed(vs, v);
    } else {
      StepEventWellFormed(vs, v);
    }
  }
}
