/**
 * The shared error helper of the service (shared/helpers.go): every JSON
 * failure reply of the users handler goes through HandleJSONError, which sends
 * `{"error": "[<status>] <message>"}` and logs the same text together with
 * the caller's supplementary messages. When the envelope cannot be encoded it
 * logs only the encoder's error and sends http.Error's plain-text 500 instead.
 */
module Helpers {
  import opened Wrappers
  import opened Strconv
  import Json
  import opened Http
  import opened Zap

  /** The error envelope: one field, `error`. */
  datatype ErrorResponse = ErrorResponse(error: string)
  {
    function ToJson(): Json.Value
    {
      Json.Object([("error", Json.String(error))])
    }
  }

  /** The `"[%d] %s"` format applied to a status and a message. */
  function ErrorText(status: int, errMsg: string): (t: string)
    ensures |t| == |FormatInt(status)| + |errMsg| + 3
    ensures t[0] == '[' && t[1..|t| - |errMsg| - 2] == FormatInt(status)
    ensures t[|t| - |errMsg| - 2..|t| - |errMsg|] == "] " && t[|t| - |errMsg|..] == errMsg
  {
    "[" + FormatInt(status) + "] " + errMsg
  }

  /**
   * The reply HandleJSONError sends: the JSON envelope with the requested
   * status, or, when the envelope cannot be encoded (`envelopeFault` holds the
   * encoder's error), a plain-text 500 instead of the requested status.
   */
  function ErrorReply(errMsg: string, status: int, envelopeFault: Option<string>): (r: Reply)
    ensures r.status == if envelopeFault.Some? then StatusInternalServerError else status
    ensures envelopeFault.None? ==> r.headers == JsonHeaders
    ensures envelopeFault.Some? ==> r.headers == TextHeaders && r.body == [TextBody("Internal Server Error" + "\n")]
    ensures |r.body| == 1
  {
    if envelopeFault.Some? then TextReply("Internal Server Error", StatusInternalServerError)
    else Reply(status, JsonHeaders, [JsonBody(ErrorResponse(ErrorText(status, errMsg)).ToJson())])
  }

  /** One `message` field per supplementary value, in order. */
  function MessageFields(messages: seq<string>): (fields: seq<Field>)
    ensures |fields| == |messages|
    ensures forall i :: 0 <= i < |fields| ==> fields[i].key == "message" && fields[i].value == messages[i]
  {
    seq(|messages|, i requires 0 <= i < |messages| => Field("message", messages[i]))
  }

  /** What HandleJSONError logs: the formatted text with the messages, or only the encoder's failure. */
  function ErrorLog(errMsg: string, status: int, messages: seq<string>, envelopeFault: Option<string>): (log: seq<Entry>)
    ensures |log| == 1
    ensures envelopeFault.None? ==> log[0].msg == ErrorText(status, errMsg) && |log[0].fields| == |messages|
    ensures envelopeFault.Some? ==> log[0].fields == [Field("error", envelopeFault.value)]
  {
    if envelopeFault.Some? then [Entry("Failed to marshal error response", [Field("error", envelopeFault.value)])]
    else [Entry(ErrorText(status, errMsg), MessageFields(messages))]
  }

  /** The text of an error reply splits back into the status and the message. */
  lemma ErrorTextParts(status: int, errMsg: string)
    requires 100 <= status <= 999
    ensures var t := ErrorText(status, errMsg);
      |t| == |errMsg| + 6 && t[0] == '[' && Atoi(t[1..4]) == Some(status) && t[4..6] == "] " && t[6..] == errMsg
  {
    ThreeDigits(status);
    AtoiFormatInt(status);
    var t := ErrorText(status, errMsg);
    assert t[1..4] == FormatInt(status);
  }

  /**
   * When the envelope can be encoded, the requested status reaches the client
   * twice: in the status line and inside the envelope's text. When it cannot,
   * the client sees only a 500.
   */
  lemma ErrorReplyStatus(errMsg: string, status: int, envelopeFault: Option<string>)
    requires 100 <= status <= 999
    ensures var r := ErrorReply(errMsg, status, envelopeFault);
      envelopeFault.None? ==>
        (r.status == status && r.headers[ContentType] == ApplicationJson &&
         exists t :: r.body == [JsonBody(ErrorResponse(t).ToJson())] && Atoi(t[1..4]) == Some(status) && t[6..] == errMsg)
    ensures envelopeFault.Some? ==> ErrorReply(errMsg, status, envelopeFault).status == StatusInternalServerError
  {
    ErrorTextParts(status, errMsg);
  }

  /** The supplementary messages reach the log only: the reply does not depend on them. */
  lemma MessagesOnlyLogged(errMsg: string, status: int, envelopeFault: Option<string>, m1: seq<string>, m2: seq<string>)
    ensures ErrorLog(errMsg, status, m1, envelopeFault) == ErrorLog(errMsg, status, m2, envelopeFault) <==>
      envelopeFault.Some? || m1 == m2
  {
    if envelopeFault.None? && MessageFields(m1) == MessageFields(m2) {
      assert |m1| == |m2|;
      forall i | 0 <= i < |m1| ensures m1[i] == m2[i] {
        assert MessageFields(m1)[i] == MessageFields(m2)[i];
      }
    }
  }

  lemma ThreeDigitSpelling(n: int)
    requires 100 <= n <= 999
    ensures FormatInt(n) == [Digit(n / 100), Digit(n / 10 % 10), Digit(n % 10)]
  {
    assert NatDigits(n / 10) == NatDigits(n / 10 / 10) + [Digit(n / 10 % 10)];
  }

  /** The status codes of the users handler's error replies, printed. */
  lemma StatusSpellings()
    ensures FormatInt(400) == "400" && FormatInt(404) == "404" && FormatInt(500) == "500"
  {
    ThreeDigitSpelling(400);
    ThreeDigitSpelling(404);
    ThreeDigitSpelling(500);
    assert Digit(0) == '0' && Digit(4) == '4' && Digit(5) == '5';
  }

  /** The prefixes of the error texts the users handler sends. */
  lemma StatusTexts(errMsg: string)
    ensures ErrorText(400, errMsg) == "[400] " + errMsg
    ensures ErrorText(404, errMsg) == "[404] " + errMsg
    ensures ErrorText(500, errMsg) == "[500] " + errMsg
  {
    StatusSpellings();
    assert "[" + "400" + "] " == "[400] ";
    assert "[" + "404" + "] " == "[404] ";
    assert "[" + "500" + "] " == "[500] ";
  }

  /** convertToFields: fills a slice of the same length, one `message` field per value. */
  method ConvertToFields(messages: seq<string>) returns (fields: seq<Field>)
    ensures |fields| == |messages|
    ensures forall i :: 0 <= i < |messages| ==> fields[i] == Field("message", messages[i])
  {
    var a := new Field[|messages|](_ => Field("", ""));
    var i := 0;
    while i < |messages|
      invariant 0 <= i <= |messages| == a.Length
      invariant forall k :: 0 <= k < i ==> a[k] == Field("message", messages[k])
    {
      a[i] := Field("message", messages[i]);
      i := i + 1;
    }
    fields := a[..];
  }

  /**
   * HandleJSONError: format the text, encode the envelope, set the JSON
   * content type, write the status and the body, and log the text with the
   * supplementary messages. The messages never reach the reply.
   */
  method HandleJSONError(w: ResponseWriter, errMsg: string, status: int, log: Logger,
                         messages: seq<string>, envelopeFault: Option<string>)
    requires ValidCode(status)
    modifies w, log
    ensures var r := ErrorReply(errMsg, status, envelopeFault);
      w.header == old(w.header) + r.headers && w.body == old(w.body) + r.body &&
      (old(w.status) == 0 ==> w.status == r.status && w.superfluous == old(w.superfluous)) &&
      (old(w.status) != 0 ==> w.status == old(w.status) && w.superfluous == old(w.superfluous) + 1)
    ensures log.entries == old(log.entries) + ErrorLog(errMsg, status, messages, envelopeFault)
  {
    var text := ErrorText(status, errMsg);
    var envelope := ErrorResponse(text);
    if envelopeFault.Some? {
      log.Error("Failed to marshal error response", [Field("error", envelopeFault.value)]);
      Error(w, "Internal Server Error", StatusInternalServerError);
      return;
    }
    w.SetHeader(ContentType, ApplicationJson);
    w.WriteHeader(status);
    w.Write(JsonBody(envelope.ToJson()));
    var fields := ConvertToFields(messages);
    assert fields == MessageFields(messages);
    log.Error(text, fields);
  }
}
