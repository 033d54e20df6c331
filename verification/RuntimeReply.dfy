/** How an answer of the runtime becomes an operation, or an error text that decides between retry and failure. */
module RuntimeReply {
  import opened Wrappers
  import opened Text
  import opened Json
  import opened Vocabulary

  datatype RuntimeOperation = RuntimeOperation(
    operationId: string,
    operationType: Option<string>,
    status: Status,
    reasonCode: Option<string>,
    reasonMessage: Option<string>)

  function AsStr(v: Option<Json>): Option<string> {
    if v.Some? && v.value.Str? then Some(v.value.s) else None
  }

  function AsBool(v: Option<Json>): Option<bool> {
    if v.Some? && v.value.Bool? then Some(v.value.b) else None
  }

  function OrElse(v: Option<string>, default: string): string {
    if v.Some? then v.value else default
  }

  function RetryableText(retryable: Option<bool>): string {
    match retryable
    case Some(true) => "true"
    case Some(false) => "false"
    case None => "unknown"
  }

  const RETRYABLE_TAG := "retryable="

  /** The error text `code|retryable=...|detail`. */
  function ErrorText(code: string, retryable: Option<bool>, detail: string): string {
    code + "|" + (RETRYABLE_TAG + RetryableText(retryable)) + "|" + detail
  }

  function OperationOf(value: Json): RuntimeOperation {
    RuntimeOperation(
      OrElse(AsStr(Get(value, "operation_id")), ""),
      AsStr(Get(value, "operation_type")),
      StatusFromText(OrElse(AsStr(Get(value, "status")), "accepted")),
      AsStr(Get(value, "reason_code")),
      AsStr(Get(value, "reason_message")))
  }

  /** `value` is the parsed body, or an empty object when the body is not JSON. */
  function ParseRuntimeResponse(httpStatus: int, body: string, value: Json): Result<RuntimeOperation, string> {
    var op := OperationOf(value);
    if 500 <= httpStatus < 600 then
      Err(ErrorText(RC_ORCH_DEPENDENCY_UNAVAILABLE, Some(true), body))
    else if 400 <= httpStatus < 500 then
      if op.reasonCode == Some(RC_IDEMPOTENCY_REPLAY) && op.operationId != "" then
        Ok(op)
      else
        Err(ErrorText(
              OrElse(op.reasonCode, RC_OPERATION_FAILED),
              AsBool(Get(value, "retryable")),
              OrElse(op.reasonMessage, "client_error")))
    else
      Ok(op)
  }

  // ---- what an answer means ----------------------------------------------

  /** The answer's member is this string. */
  predicate Says(value: Json, key: string, text: string) {
    Get(value, key) == Some(Str(text))
  }

  /** The answer's member is no string. */
  predicate Silent(value: Json, key: string) {
    match Get(value, key)
    case Some(Str(_)) => false
    case _ => true
  }

  /** A client error that stands for an operation the runtime already has: a replay that names it. */
  ghost predicate NamesReplay(value: Json) {
    Says(value, "reason_code", "ELASTICITY_IDEMPOTENCY_REPLAY") && exists id :: id != "" && Says(value, "operation_id", id)
  }

  /** The answer's string member, or what stands in for it. */
  predicate Reads(value: Json, key: string, default: string, text: string) {
    Says(value, key, text) || (Silent(value, key) && text == default)
  }

  predicate ReadsOption(value: Json, key: string, text: Option<string>) {
    match text
    case Some(t) => Says(value, key, t)
    case None => Silent(value, key)
  }

  lemma StringsRead(value: Json, key: string, default: string)
    ensures Reads(value, key, default, OrElse(AsStr(Get(value, key)), default))
    ensures ReadsOption(value, key, AsStr(Get(value, key)))
  {
    hide Get;
  }

  /** The operation that an answer describes: its members of these names, with two defaults. */
  predicate Describes(value: Json, op: RuntimeOperation) {
    && Reads(value, "operation_id", "", op.operationId)
    && ReadsOption(value, "operation_type", op.operationType)
    && Reads(value, "status", "accepted", StatusText(op.status)) && Stored(op.status)
    && ReadsOption(value, "reason_code", op.reasonCode)
    && ReadsOption(value, "reason_message", op.reasonMessage)
  }

  lemma OperationDescribed(value: Json)
    ensures Describes(value, OperationOf(value))
  {
    hide Get, Says, Silent, StatusFromText, StatusText, Reads, ReadsOption;
    StringsRead(value, "operation_id", "");
    StringsRead(value, "operation_type", "");
    StringsRead(value, "status", "accepted");
    StringsRead(value, "reason_code", "");
    StringsRead(value, "reason_message", "");
    StatusRoundTrip(OrElse(AsStr(Get(value, "status")), "accepted"));
  }

  lemma ReplayNamed(value: Json)
    ensures NamesReplay(value) <==>
              OperationOf(value).reasonCode == Some("ELASTICITY_IDEMPOTENCY_REPLAY") && OperationOf(value).operationId != ""
  {
    hide Get, StatusFromText;
    var op := OperationOf(value);
    if op.operationId != "" {
      assert Says(value, "operation_id", op.operationId);
    }
  }

  /** An answer is an operation exactly when it is no error, or a replay that names its operation; and it is the operation it describes. */
  lemma AnswerIsOperationIff(httpStatus: int, body: string, value: Json)
    ensures var r := ParseRuntimeResponse(httpStatus, body, value);
            && (r.Ok? <==> !(400 <= httpStatus < 600) || (400 <= httpStatus < 500 && NamesReplay(value)))
            && (r.Ok? ==> Describes(value, r.value))
  {
    hide OperationOf, Describes, ErrorText, NamesReplay;
    ReplayNamed(value);
    OperationDescribed(value);
  }

  /** What a refusal's text is made of: for a server error the body, for a client error the answer's code, flag and message. */
  lemma RefusalText(httpStatus: int, body: string, value: Json)
    requires ParseRuntimeResponse(httpStatus, body, value).Err?
    ensures var m := ParseRuntimeResponse(httpStatus, body, value).error;
            && (500 <= httpStatus < 600 ==> m == "ORCH_DEPENDENCY_UNAVAILABLE" + "|" + "retryable=true" + "|" + body)
            && (400 <= httpStatus < 500 ==>
                  exists code, flag, message ::
                    && Reads(value, "reason_code", "ELASTICITY_OPERATION_FAILED", code)
                    && Reads(value, "reason_message", "client_error", message)
                    && flag == (if Get(value, "retryable") == Some(Bool(true)) then "retryable=true"
                                else if Get(value, "retryable") == Some(Bool(false)) then "retryable=false"
                                else "retryable=unknown")
                    && m == code + "|" + flag + "|" + message)
  {
    hide Get, Says, Silent, StatusFromText, Reads, ReadsOption;
    StringsRead(value, "reason_code", RC_OPERATION_FAILED);
    StringsRead(value, "reason_message", "client_error");
    var op, flag := OperationOf(value), RETRYABLE_TAG + RetryableText(AsBool(Get(value, "retryable")));
    FlagText(value);
    if 400 <= httpStatus < 500 {
      var code, message := OrElse(op.reasonCode, RC_OPERATION_FAILED), OrElse(op.reasonMessage, "client_error");
      assert ParseRuntimeResponse(httpStatus, body, value).error == code + "|" + flag + "|" + message;
    }
  }

  lemma FlagText(value: Json)
    ensures RETRYABLE_TAG + RetryableText(AsBool(Get(value, "retryable"))) ==
              (if Get(value, "retryable") == Some(Bool(true)) then "retryable=true"
               else if Get(value, "retryable") == Some(Bool(false)) then "retryable=false"
               else "retryable=unknown")
    ensures RETRYABLE_TAG + RetryableText(Some(true)) == "retryable=true"
  {
    hide Get;
  }

  datatype DispatchError = DispatchError(code: string, retryable: Option<bool>, detail: string)

  /** Strips `prefix` from the front of `s` as often as it occurs there. */
  function TrimStartMatches(s: string, prefix: string): string
    requires prefix != ""
  {
    if StartsWith(s, prefix) then TrimStartMatches(s[|prefix|..], prefix) else s
  }

  const KNOWN_CODES := [
    RC_INVALID_ARGUMENT, RC_TARGET_NOT_FOUND, RC_RESOURCE_PRESSURE, RC_OPERATION_FAILED,
    RC_IDEMPOTENCY_REPLAY, RC_ORCH_ACTION_UNSUPPORTED, RC_ORCH_DEPENDENCY_UNAVAILABLE]

  function FirstKnown(codes: seq<string>, message: string): string {
    if codes == [] then RC_ORCH_DEPENDENCY_UNAVAILABLE
    else if StartsWith(message, codes[0]) then codes[0]
    else FirstKnown(codes[1..], message)
  }

  function PlainError(message: string): DispatchError {
    DispatchError(FirstKnown(KNOWN_CODES, message), None, message)
  }

  function ReadRetryable(text: string): Option<bool> {
    match text
    case "true" => Some(true)
    case "false" => Some(false)
    case _ => None
  }

  function ParseDispatchError(message: string): DispatchError {
    var i := IndexOf(message, '|');
    if i == |message| then PlainError(message) else
      var rest := message[i + 1..];
      var j := IndexOf(rest, '|');
      if j == |rest| || !StartsWith(rest[..j], RETRYABLE_TAG) then PlainError(message) else
        DispatchError(message[..i], ReadRetryable(TrimStartMatches(rest[..j], RETRYABLE_TAG)), rest[j + 1..])
  }

  lemma TagRoundTrip(retryable: Option<bool>)
    ensures var tag := RETRYABLE_TAG + RetryableText(retryable);
            '|' !in tag && StartsWith(tag, RETRYABLE_TAG)
            && TrimStartMatches(tag, RETRYABLE_TAG) == RetryableText(retryable)
  {
    var text := RetryableText(retryable);
    var tag := RETRYABLE_TAG + text;
    assert tag[..|RETRYABLE_TAG|] == RETRYABLE_TAG && tag[|RETRYABLE_TAG|..] == text;
    assert |text| < |RETRYABLE_TAG|;
  }

  lemma {:induction false} FirstKnownHasNoSeparator(codes: seq<string>, message: string)
    requires forall i :: 0 <= i < |codes| ==> '|' !in codes[i]
    ensures '|' !in FirstKnown(codes, message)
  {
    if codes != [] && !StartsWith(message, codes[0]) {
      FirstKnownHasNoSeparator(codes[1..], message);
    }
  }

  lemma KnownCodesHaveNoSeparator()
    ensures forall i :: 0 <= i < |KNOWN_CODES| ==> '|' !in KNOWN_CODES[i]
  {
  }

  /** No code that the parser returns holds the separator. */
  lemma ParsedCodeHasNoSeparator(message: string)
    ensures '|' !in ParseDispatchError(message).code
  {
    hide KNOWN_CODES, TrimStartMatches, StartsWith, FirstKnown;
    KnownCodesHaveNoSeparator();
    FirstKnownHasNoSeparator(KNOWN_CODES, message);
  }

  lemma ReadsParts(code: string, tag: string, detail: string)
    requires '|' !in code && '|' !in tag && StartsWith(tag, RETRYABLE_TAG)
    ensures ParseDispatchError(code + "|" + tag + "|" + detail)
            == DispatchError(code, ReadRetryable(TrimStartMatches(tag, RETRYABLE_TAG)), detail)
  {
    hide KNOWN_CODES, RETRYABLE_TAG, TrimStartMatches, StartsWith, FirstKnown, ReadRetryable;
    var message := code + "|" + tag + "|" + detail;
    assert message == code + ['|'] + (tag + ['|'] + detail);
    FirstSeparator(code, tag + ['|'] + detail, '|');
    FirstSeparator(tag, detail, '|');
  }

  lemma ErrorReadsBack(code: string, retryable: Option<bool>, detail: string)
    requires '|' !in code
    ensures ParseDispatchError(ErrorText(code, retryable, detail)) == DispatchError(code, retryable, detail)
  {
    hide ParseDispatchError, TrimStartMatches, StartsWith;
    TagRoundTrip(retryable);
    ReadsParts(code, RETRYABLE_TAG + RetryableText(retryable), detail);
    assert ReadRetryable(RetryableText(retryable)) == retryable;
  }

  /** Formatting and parsing an error keeps its three parts exactly when the code holds no separator. */
  lemma ErrorRoundTrip(code: string, retryable: Option<bool>, detail: string)
    ensures ParseDispatchError(ErrorText(code, retryable, detail)) == DispatchError(code, retryable, detail)
            <==> '|' !in code
  {
    hide ParseDispatchError, ErrorText;
    ParsedCodeHasNoSeparator(ErrorText(code, retryable, detail));
    if '|' !in code {
      ErrorReadsBack(code, retryable, detail);
    }
  }

  /** A plain error's code is the first known one that the text starts with, or the dependency code. */
  lemma {:induction false} FirstKnownMeans(codes: seq<string>, message: string)
    ensures (forall i :: 0 <= i < |codes| ==> !StartsWith(message, codes[i])) ==> FirstKnown(codes, message) == "ORCH_DEPENDENCY_UNAVAILABLE"
    ensures forall i :: 0 <= i < |codes| && StartsWith(message, codes[i]) && (forall j :: 0 <= j < i ==> !StartsWith(message, codes[j])) ==>
              FirstKnown(codes, message) == codes[i]
  {
    hide StartsWith;
    if codes != [] {
      FirstKnownMeans(codes[1..], message);
      forall i | 0 < i < |codes| && StartsWith(message, codes[i]) && (forall j :: 0 <= j < i ==> !StartsWith(message, codes[j]))
        ensures FirstKnown(codes, message) == codes[i]
      {
        assert codes[1..][i - 1] == codes[i] && !StartsWith(message, codes[0]);
        assert forall j :: 0 <= j < i - 1 ==> codes[1..][j] == codes[j + 1];
      }
      assert (forall i :: 0 <= i < |codes| ==> !StartsWith(message, codes[i])) ==> !StartsWith(message, codes[0]);
      assert forall j :: 0 <= j < |codes| - 1 ==> codes[1..][j] == codes[j + 1];
    }
  }

  /** The seven codes that a plain error may start with; none starts with another. */
  predicate IsKnownCode(code: string) {
    code in {"ELASTICITY_INVALID_ARGUMENT", "ELASTICITY_TARGET_NOT_FOUND", "ELASTICITY_RESOURCE_PRESSURE", "ELASTICITY_OPERATION_FAILED",
             "ELASTICITY_IDEMPOTENCY_REPLAY", "ORCH_ACTION_UNSUPPORTED", "ORCH_DEPENDENCY_UNAVAILABLE"}
  }

  lemma KnownCodesAre()
    ensures forall i :: 0 <= i < |KNOWN_CODES| ==> IsKnownCode(KNOWN_CODES[i])
    ensures forall code :: IsKnownCode(code) ==> code in KNOWN_CODES
    ensures forall i, j :: 0 <= i < |KNOWN_CODES| && 0 <= j < |KNOWN_CODES| && i != j ==> TellsApart(KNOWN_CODES[i], KNOWN_CODES[j])
  {
    var ks := KNOWN_CODES;
    assert ks[0] == "ELASTICITY_INVALID_ARGUMENT" && ks[1] == "ELASTICITY_TARGET_NOT_FOUND" && ks[2] == "ELASTICITY_RESOURCE_PRESSURE";
    assert ks[3] == "ELASTICITY_OPERATION_FAILED" && ks[4] == "ELASTICITY_IDEMPOTENCY_REPLAY";
    assert ks[5] == "ORCH_ACTION_UNSUPPORTED" && ks[6] == "ORCH_DEPENDENCY_UNAVAILABLE";
    assert ks[0][11] == 'I' && ks[0][12] == 'N' && ks[1][11] == 'T' && ks[2][11] == 'R' && ks[3][11] == 'O' && ks[4][11] == 'I' && ks[4][12] == 'D';
    assert ks[5][5] == 'A' && ks[6][5] == 'D';
    assert ks[5][0] == ks[6][0] == 'O' && forall i :: 0 <= i < 5 ==> ks[i][0] == 'E';
  }

  /** The texts differ within the shorter one. */
  predicate TellsApart(a: string, b: string) {
    exists k :: 0 <= k < |a| && k < |b| && a[k] != b[k]
  }

  lemma OneCodeStarts(message: string, a: string, b: string)
    requires StartsWith(message, a) && TellsApart(a, b)
    ensures !StartsWith(message, b)
  {
    var k :| 0 <= k < |a| && k < |b| && a[k] != b[k];
    assert message[..|a|][k] == message[k];
    assert |b| <= |message| ==> message[..|b|][k] == message[k];
  }

  /** A text without separator is a plain error: it has the known code that it starts with, or the dependency code, no flag, and itself as detail. */
  lemma PlainErrorMeans(message: string)
    requires '|' !in message
    ensures var d := ParseDispatchError(message);
            && d.retryable.None? && d.detail == message
            && (forall code :: IsKnownCode(code) && StartsWith(message, code) ==> d.code == code)
            && ((forall code :: IsKnownCode(code) ==> !StartsWith(message, code)) ==> d.code == "ORCH_DEPENDENCY_UNAVAILABLE")
  {
    hide FirstKnown, StartsWith, KNOWN_CODES, ParseDispatchError, IsKnownCode, TellsApart;
    PlainIs(message);
    KnownCodesAre();
    FirstKnownMeans(KNOWN_CODES, message);
    forall code | IsKnownCode(code) && StartsWith(message, code)
      ensures FirstKnown(KNOWN_CODES, message) == code
    {
      var i :| 0 <= i < |KNOWN_CODES| && KNOWN_CODES[i] == code;
      forall j | 0 <= j < i
        ensures !StartsWith(message, KNOWN_CODES[j])
      {
        OneCodeStarts(message, KNOWN_CODES[i], KNOWN_CODES[j]);
      }
    }
  }

  /** Stripping a prefix takes it off as often as it stands in front. */
  lemma {:induction false} TrimMatchesMeans(s: string, prefix: string) returns (n: nat)
    requires prefix != ""
    ensures s == Repeated(prefix, n) + TrimStartMatches(s, prefix) && !StartsWith(TrimStartMatches(s, prefix), prefix)
  {
    if StartsWith(s, prefix) {
      n := TrimMatchesMeans(s[|prefix|..], prefix);
      assert s == prefix + s[|prefix|..];
      assert prefix + (Repeated(prefix, n) + TrimStartMatches(s, prefix)) == prefix + Repeated(prefix, n) + TrimStartMatches(s, prefix);
      n := n + 1;
    } else {
      n := 0;
      assert "" + s == s;
    }
  }

  function Repeated(s: string, n: nat): string {
    if n == 0 then "" else s + Repeated(s, n - 1)
  }

  /** What is read from the error texts of a lost reply, a missing base URL and an unsupported type. */
  lemma PlainErrorsRead()
    ensures var d := ParseDispatchError("runtime request failed");
            d.code == "ORCH_DEPENDENCY_UNAVAILABLE" && d.retryable.None? && d.detail == "runtime request failed"
    ensures var d := ParseDispatchError(RC_ORCH_DEPENDENCY_UNAVAILABLE);
            d.code == "ORCH_DEPENDENCY_UNAVAILABLE" && d.retryable.None? && d.detail == "ORCH_DEPENDENCY_UNAVAILABLE"
    ensures var d := ParseDispatchError(RC_ORCH_ACTION_UNSUPPORTED);
            d.code == "ORCH_ACTION_UNSUPPORTED" && d.retryable.None? && d.detail == "ORCH_ACTION_UNSUPPORTED"
  {
    hide FirstKnown, StartsWith, KNOWN_CODES, ParseDispatchError;
    NoSeparatorInPlainErrors();
    PlainIs("runtime request failed");
    PlainIs(RC_ORCH_DEPENDENCY_UNAVAILABLE);
    PlainIs(RC_ORCH_ACTION_UNSUPPORTED);
    LostReplyCode();
    DependencyCode();
    UnsupportedCode();
  }

  lemma NoSeparatorInPlainErrors()
    ensures '|' !in "runtime request failed" && '|' !in RC_ORCH_DEPENDENCY_UNAVAILABLE && '|' !in RC_ORCH_ACTION_UNSUPPORTED
  {}

  lemma PlainIs(message: string)
    requires '|' !in message
    ensures ParseDispatchError(message) == PlainError(message)
  {
    hide PlainError;
  }

  lemma LostReplyCode()
    ensures FirstKnown(KNOWN_CODES, "runtime request failed") == "ORCH_DEPENDENCY_UNAVAILABLE"
  {
    FirstKnownMeans(KNOWN_CODES, "runtime request failed");
    forall i | 0 <= i < |KNOWN_CODES|
      ensures !StartsWith("runtime request failed", KNOWN_CODES[i])
    {
      assert KNOWN_CODES[i][0] != 'r';
    }
  }

  lemma DependencyCode()
    ensures FirstKnown(KNOWN_CODES, RC_ORCH_DEPENDENCY_UNAVAILABLE) == "ORCH_DEPENDENCY_UNAVAILABLE"
  {
    FirstKnownMeans(KNOWN_CODES, RC_ORCH_DEPENDENCY_UNAVAILABLE);
    forall i | 0 <= i < 6
      ensures !StartsWith(RC_ORCH_DEPENDENCY_UNAVAILABLE, KNOWN_CODES[i])
    {
      assert KNOWN_CODES[i][0] != 'O' || KNOWN_CODES[i][5] == 'A';
    }
    assert StartsWith(RC_ORCH_DEPENDENCY_UNAVAILABLE, KNOWN_CODES[6]);
  }

  lemma UnsupportedCode()
    ensures FirstKnown(KNOWN_CODES, RC_ORCH_ACTION_UNSUPPORTED) == "ORCH_ACTION_UNSUPPORTED"
  {
    FirstKnownMeans(KNOWN_CODES, RC_ORCH_ACTION_UNSUPPORTED);
    forall i | 0 <= i < 5
      ensures !StartsWith(RC_ORCH_ACTION_UNSUPPORTED, KNOWN_CODES[i])
    {
      assert KNOWN_CODES[i][0] == 'E';
    }
    assert StartsWith(RC_ORCH_ACTION_UNSUPPORTED, KNOWN_CODES[5]);
  }

  // ---- retry or fail -----------------------------------------------------

  datatype Verdict = Fail | RetryFixed | RetryBackoff

  /** The branches taken after a failed dispatch. */
  function Judge(t: ActionType, code: string, retryable: Option<bool>): Verdict {
    if t == SetPoolTarget then
      if code == RC_INVALID_ARGUMENT || code == RC_TARGET_NOT_FOUND
         || (code == RC_OPERATION_FAILED && retryable != Some(true))
         || (code == RC_RESOURCE_PRESSURE && retryable != Some(true)) then Fail
      else if code == RC_RESOURCE_PRESSURE && retryable == Some(true) then RetryFixed
      else if retryable == Some(true) then RetryBackoff
      else Fail
    else if code == RC_INVALID_ARGUMENT || code == RC_ORCH_ACTION_UNSUPPORTED then Fail
    else if code == RC_RESOURCE_PRESSURE then RetryFixed
    else RetryBackoff
  }

  /** The rule the branches amount to. */
  predicate Retries(t: ActionType, code: string, retryable: Option<bool>) {
    if t == SetPoolTarget then
      retryable == Some(true) && code !in {"ELASTICITY_INVALID_ARGUMENT", "ELASTICITY_TARGET_NOT_FOUND"}
    else
      code !in {"ELASTICITY_INVALID_ARGUMENT", "ORCH_ACTION_UNSUPPORTED"}
  }

  function Rule(t: ActionType, code: string, retryable: Option<bool>): Verdict {
    if !Retries(t, code, retryable) then Fail
    else if code == "ELASTICITY_RESOURCE_PRESSURE" then RetryFixed
    else RetryBackoff
  }

  lemma JudgeIsRule(t: ActionType, code: string, retryable: Option<bool>)
    ensures Judge(t, code, retryable) == Rule(t, code, retryable)
  {
    assert |RC_RESOURCE_PRESSURE| == 28 && |RC_INVALID_ARGUMENT| == 27 && |RC_TARGET_NOT_FOUND| == 27
           && |RC_OPERATION_FAILED| == 27 && |RC_ORCH_ACTION_UNSUPPORTED| == 23;
  }

  /** What a refused request means, read from the answer itself. */
  function DirectVerdict(t: ActionType, httpStatus: int, value: Json): Verdict {
    if 500 <= httpStatus < 600 then RetryBackoff
    else Rule(t, OrElse(AsStr(Get(value, "reason_code")), RC_OPERATION_FAILED), AsBool(Get(value, "retryable")))
  }

  lemma ServerErrorRetries(t: ActionType)
    ensures Judge(t, RC_ORCH_DEPENDENCY_UNAVAILABLE, Some(true)) == RetryBackoff
  {
    var code := RC_ORCH_DEPENDENCY_UNAVAILABLE;
    assert code[0] == 'O' && RC_INVALID_ARGUMENT[0] == 'E' && RC_TARGET_NOT_FOUND[0] == 'E' && RC_RESOURCE_PRESSURE[0] == 'E';
    assert code[5] == 'D' && RC_ORCH_ACTION_UNSUPPORTED[5] == 'A';
  }

  /** For a code without the separator the error text decides as the answer itself does. */
  lemma PlainCodeIsDirect(t: ActionType, httpStatus: int, body: string, value: Json)
    requires ParseRuntimeResponse(httpStatus, body, value).Err?
    requires 500 <= httpStatus < 600 || '|' !in OrElse(AsStr(Get(value, "reason_code")), RC_OPERATION_FAILED)
    ensures var e := ParseDispatchError(ParseRuntimeResponse(httpStatus, body, value).error);
            Judge(t, e.code, e.retryable) == DirectVerdict(t, httpStatus, value)
  {
    if 500 <= httpStatus < 600 {
      assert '|' !in RC_ORCH_DEPENDENCY_UNAVAILABLE;
      ErrorRoundTrip(RC_ORCH_DEPENDENCY_UNAVAILABLE, Some(true), body);
      ServerErrorRetries(t);
    } else {
      ClientPathIsDirect(t, httpStatus, body, value, OperationOf(value));
    }
  }

  lemma ClientPathIsDirect(t: ActionType, httpStatus: int, body: string, value: Json, op: RuntimeOperation)
    requires 400 <= httpStatus < 500 && op == OperationOf(value)
    requires ParseRuntimeResponse(httpStatus, body, value).Err?
    requires '|' !in OrElse(op.reasonCode, RC_OPERATION_FAILED)
    ensures var e := ParseDispatchError(ParseRuntimeResponse(httpStatus, body, value).error);
            Judge(t, e.code, e.retryable) == DirectVerdict(t, httpStatus, value)
  {
    var code, retryable := OrElse(op.reasonCode, RC_OPERATION_FAILED), AsBool(Get(value, "retryable"));
    var detail := OrElse(op.reasonMessage, "client_error");
    assert ParseRuntimeResponse(httpStatus, body, value).error == ErrorText(code, retryable, detail);
    ErrorRoundTrip(code, retryable, detail);
    JudgeIsRule(t, code, retryable);
  }

  // ---- codes with a separator --------------------------------------------

  lemma IndexOfAppend(s: string, x: string, c: char)
    ensures IndexOf(s + [c] + x, c) == IndexOf(s, c)
  {
    var i, l := IndexOf(s, c), s + [c] + x;
    assert forall j :: 0 <= j < |s| ==> l[j] == s[j];
    assert l[|s|] == c && l[i] == c;
  }

  function FirstPart(code: string): string {
    code[..IndexOf(code, '|')]
  }

  /** The text between the first separator and the next, or the end. */
  function SecondPart(code: string): string
    requires '|' in code
  {
    var rest := code[IndexOf(code, '|') + 1..];
    rest[..IndexOf(rest, '|')]
  }

  /** The code and the flag that are read back when the code holds a separator: the answer's own flag is not among them. */
  function LeadingCode(code: string): string
    requires '|' in code
  {
    if StartsWith(SecondPart(code), RETRYABLE_TAG) then FirstPart(code) else FirstKnown(KNOWN_CODES, FirstPart(code))
  }

  function LeadingFlag(code: string): Option<bool>
    requires '|' in code
  {
    if StartsWith(SecondPart(code), RETRYABLE_TAG) then ReadRetryable(TrimStartMatches(SecondPart(code), RETRYABLE_TAG)) else None
  }

  lemma StartsBeforeSeparator(message: string, i: nat, code: string)
    requires i < |message| && message[i] == '|' && '|' !in code
    ensures StartsWith(message, code) <==> StartsWith(message[..i], code)
  {
    assert i < |code| <= |message| ==> code[i] != '|' == message[..|code|][i];
    if |code| <= i {
      assert message[..i][..|code|] == message[..|code|];
    }
  }

  lemma {:induction false} KnownBeforeSeparator(codes: seq<string>, message: string, i: nat)
    requires i < |message| && message[i] == '|' && forall k :: 0 <= k < |codes| ==> '|' !in codes[k]
    ensures FirstKnown(codes, message) == FirstKnown(codes, message[..i])
  {
    hide StartsWith;
    if codes != [] {
      StartsBeforeSeparator(message, i, codes[0]);
      KnownBeforeSeparator(codes[1..], message, i);
    }
  }

  /** When the code holds a separator, what is read back is fixed by the code alone. */
  lemma ReadsLeadingParts(code: string, retryable: Option<bool>, detail: string)
    requires '|' in code
    ensures var e := ParseDispatchError(ErrorText(code, retryable, detail));
            e.code == LeadingCode(code) && e.retryable == LeadingFlag(code)
  {
    hide KNOWN_CODES, RETRYABLE_TAG, TrimStartMatches, StartsWith, FirstKnown, ReadRetryable, RetryableText, IndexOf;
    var tail := (RETRYABLE_TAG + RetryableText(retryable)) + "|" + detail;
    var message := ErrorText(code, retryable, detail);
    assert message == code + ['|'] + tail;
    IndexOfAppend(code, tail, '|');
    var i := IndexOf(code, '|');
    assert message[..i] == code[..i] && message[i] == '|';
    assert message[i + 1..] == code[i + 1..] + ['|'] + tail;
    IndexOfAppend(code[i + 1..], tail, '|');
    var j := IndexOf(code[i + 1..], '|');
    assert message[i + 1..][..j] == code[i + 1..][..j];
    KnownCodesHaveNoSeparator();
    KnownBeforeSeparator(KNOWN_CODES, message, i);
  }

  /** The error text of an answer with this code decides as the answer does. */
  predicate Agrees(t: ActionType, code: string, retryable: Option<bool>, detail: string) {
    var e := ParseDispatchError(ErrorText(code, retryable, detail));
    Judge(t, e.code, e.retryable) == Rule(t, code, retryable)
  }

  lemma PlainCodeAgrees(t: ActionType, code: string, retryable: Option<bool>, detail: string)
    requires '|' !in code
    ensures Agrees(t, code, retryable, detail)
  {
    hide ParseDispatchError, ErrorText, Judge, Rule;
    ErrorRoundTrip(code, retryable, detail);
    JudgeIsRule(t, code, retryable);
  }

  lemma RuleOfSeparated(t: ActionType, code: string, retryable: Option<bool>)
    requires '|' in code
    ensures Rule(t, code, retryable) == if t == SetPoolTarget && retryable != Some(true) then Fail else RetryBackoff
  {
    assert '|' !in RC_INVALID_ARGUMENT && '|' !in RC_TARGET_NOT_FOUND && '|' !in RC_RESOURCE_PRESSURE && '|' !in RC_ORCH_ACTION_UNSUPPORTED;
  }

  /** For any code with a separator and any detail, some flag makes the pool-target action fail where it should retry, or retry where it should fail. */
  lemma SeparatorInCodeChangesVerdict(code: string, detail: string) returns (retryable: Option<bool>)
    requires '|' in code
    ensures !Agrees(SetPoolTarget, code, retryable, detail)
  {
    hide ParseDispatchError, ErrorText, Rule, LeadingCode, LeadingFlag, Judge;
    retryable := if Rule(SetPoolTarget, LeadingCode(code), LeadingFlag(code)) == Fail then Some(true) else None;
    ReadsLeadingParts(code, retryable, detail);
    JudgeIsRule(SetPoolTarget, LeadingCode(code), LeadingFlag(code));
    RuleOfSeparated(SetPoolTarget, code, retryable);
  }

  /** The codes, with or without a separator, whose verdict the error text never changes. */
  predicate SafeCode(t: ActionType, code: string) {
    '|' !in code
    || (t != SetPoolTarget && LeadingCode(code) !in {RC_INVALID_ARGUMENT, RC_ORCH_ACTION_UNSUPPORTED, RC_RESOURCE_PRESSURE})
  }

  lemma OtherTypeAgreesIff(t: ActionType, code: string, retryable: Option<bool>, detail: string)
    requires '|' in code && t != SetPoolTarget
    ensures Agrees(t, code, retryable, detail) <==> SafeCode(t, code)
  {
    hide ParseDispatchError, ErrorText, LeadingCode, LeadingFlag, Rule;
    ReadsLeadingParts(code, retryable, detail);
    RuleOfSeparated(t, code, retryable);
  }

  /** The error text decides as the answer does, for every flag and detail, exactly for the safe codes: for pool targets those without a separator. */
  lemma VerdictIff(t: ActionType, code: string)
    ensures (forall retryable, detail :: Agrees(t, code, retryable, detail)) <==> SafeCode(t, code)
  {
    hide Agrees;
    if '|' !in code {
      forall retryable, detail
        ensures Agrees(t, code, retryable, detail)
      {
        PlainCodeAgrees(t, code, retryable, detail);
      }
    } else if t == SetPoolTarget {
      var retryable := SeparatorInCodeChangesVerdict(code, "");
    } else {
      forall retryable, detail
        ensures Agrees(t, code, retryable, detail) <==> SafeCode(t, code)
      {
        OtherTypeAgreesIff(t, code, retryable, detail);
      }
      assert Agrees(t, code, None, "") <==> SafeCode(t, code);
    }
  }

  function CodeOf(value: Json): string {
    OrElse(AsStr(Get(value, "reason_code")), RC_OPERATION_FAILED)
  }

  /** A refused request's verdict through the error text is the one read from the answer. */
  predicate DecidesDirectly(t: ActionType, httpStatus: int, body: string, value: Json)
    requires ParseRuntimeResponse(httpStatus, body, value).Err?
  {
    var e := ParseDispatchError(ParseRuntimeResponse(httpStatus, body, value).error);
    Judge(t, e.code, e.retryable) == DirectVerdict(t, httpStatus, value)
  }

  /** So it does for every refusal with this code. */
  ghost predicate AlwaysDirect(t: ActionType, code: string) {
    forall httpStatus, body, value ::
      CodeOf(value) == code && ParseRuntimeResponse(httpStatus, body, value).Err? ==> DecidesDirectly(t, httpStatus, body, value)
  }

  /** An answer with a given code, flag and message. */
  function Answering(code: string, retryable: Option<bool>): Json {
    Obj([Member("reason_code", Str(code)), Member("retryable", if retryable.Some? then Bool(retryable.value) else Null)])
  }

  lemma AnsweringReads(code: string, retryable: Option<bool>)
    ensures CodeOf(Answering(code, retryable)) == code
    ensures AsBool(Get(Answering(code, retryable), "retryable")) == retryable
    ensures Get(Answering(code, retryable), "reason_message").None?
    ensures Get(Answering(code, retryable), "operation_id").None?
  {
    var ms := Answering(code, retryable).members;
    assert ms[1..] == [ms[1]] && [ms[1]][1..] == [];
    assert |"reason_code"| == 11 && |"retryable"| == 9 && |"reason_message"| == 14 && |"operation_id"| == 12;
  }

  lemma ClientVerdict(t: ActionType, httpStatus: int, body: string, value: Json)
    requires 400 <= httpStatus < 500 && ParseRuntimeResponse(httpStatus, body, value).Err?
    ensures DecidesDirectly(t, httpStatus, body, value) <==>
              Agrees(t, CodeOf(value), AsBool(Get(value, "retryable")), OrElse(AsStr(Get(value, "reason_message")), "client_error"))
  {
    hide ParseDispatchError, ErrorText, Judge, Rule, Get, AsStr, AsBool;
  }

  lemma AnsweringIsRefused(code: string, retryable: Option<bool>)
    ensures ParseRuntimeResponse(400, "", Answering(code, retryable)).Err?
  {
    hide ErrorText, Answering, Get;
    AnsweringReads(code, retryable);
  }

  lemma ServerVerdict(t: ActionType, httpStatus: int, body: string, value: Json)
    requires ParseRuntimeResponse(httpStatus, body, value).Err? && !(400 <= httpStatus < 500)
    ensures DecidesDirectly(t, httpStatus, body, value)
  {
    hide ParseDispatchError, ErrorText, Judge, Rule, Get, AsStr, AsBool;
    assert 500 <= httpStatus < 600;
    PlainCodeIsDirect(t, httpStatus, body, value);
  }

  /** The detour through the error text decides as the answer itself does, for all refusals with a code, exactly when the code is safe. */
  lemma StringPathIsDirect(t: ActionType, code: string)
    ensures AlwaysDirect(t, code) <==> SafeCode(t, code)
  {
    hide Agrees, SafeCode, DecidesDirectly, ParseRuntimeResponse, CodeOf, Answering;
    VerdictIff(t, code);
    if SafeCode(t, code) {
      forall httpStatus, body, value | CodeOf(value) == code && ParseRuntimeResponse(httpStatus, body, value).Err?
        ensures DecidesDirectly(t, httpStatus, body, value)
      {
        if 400 <= httpStatus < 500 {
          ClientVerdict(t, httpStatus, body, value);
        } else {
          ServerVerdict(t, httpStatus, body, value);
        }
      }
    } else {
      var retryable := UnsafeFlag(t, code);
      var value := Answering(code, retryable);
      AnsweringReads(code, retryable);
      AnsweringIsRefused(code, retryable);
      ClientVerdict(t, 400, "", value);
      assert !DecidesDirectly(t, 400, "", value);
    }
  }

  lemma UnsafeFlag(t: ActionType, code: string) returns (retryable: Option<bool>)
    requires !SafeCode(t, code)
    ensures !Agrees(t, code, retryable, "client_error")
  {
    hide Agrees, LeadingCode;
    if t == SetPoolTarget {
      retryable := SeparatorInCodeChangesVerdict(code, "client_error");
    } else {
      retryable := None;
      OtherTypeAgreesIff(t, code, retryable, "client_error");
    }
  }
}
