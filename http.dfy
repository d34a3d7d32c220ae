/**
 * The part of net/http the service touches: a ResponseWriter (header map,
 * status line, body) and the `http.Error` helper. The writer keeps Go's rules:
 * the first WriteHeader fixes the status and later ones are ignored (and
 * counted here as superfluous); a Write before any WriteHeader sends 200.
 */
module Http {
  import Json

  const StatusOK := 200
  const StatusCreated := 201
  const StatusBadRequest := 400
  const StatusNotFound := 404
  const StatusMethodNotAllowed := 405
  const StatusUnsupportedMediaType := 415
  const StatusInternalServerError := 500

  const ContentType := "Content-Type"
  const ApplicationJson := "application/json"

  /** A code WriteHeader accepts; any other makes it panic. */
  predicate ValidCode(code: int) { 100 <= code <= 999 }

  /** One Write call's bytes: a JSON document or plain text. */
  datatype Payload = JsonBody(value: Json.Value) | TextBody(text: string)

  /**
   * What one path of a handler sends on a writer that has sent nothing yet:
   * the headers it sets, the status it sends and the payloads it writes.
   */
  datatype Reply = Reply(status: int, headers: map<string, string>, body: seq<Payload>)

  const JsonHeaders: map<string, string> := map[ContentType := ApplicationJson]

  /** The headers http.Error sets. */
  const TextHeaders: map<string, string> :=
    map[ContentType := "text/plain; charset=utf-8", "X-Content-Type-Options" := "nosniff"]

  /** The reply http.Error sends: the message and a newline, as plain text. */
  function TextReply(msg: string, code: int): Reply
  {
    Reply(code, TextHeaders, [TextBody(msg + "\n")])
  }

  class ResponseWriter {
    var header: map<string, string>
    /** The status sent so far; 0 while none has been sent. */
    var status: int
    var body: seq<Payload>
    /** WriteHeader calls that came after a status had been sent. */
    var superfluous: nat

    constructor ()
      ensures header == map[] && status == 0 && body == [] && superfluous == 0
    {
      header, status, body, superfluous := map[], 0, [], 0;
    }

    /** Nothing has been sent yet: how the server hands a writer to a handler. */
    predicate Unsent()
      reads this
    {
      status == 0 && body == []
    }

    /** The writer, which had header `before` and had sent nothing, now shows reply `r`. */
    predicate Shows(before: map<string, string>, r: Reply)
      reads this
    {
      header == before + r.headers && status == r.status && body == r.body
    }

    method SetHeader(key: string, value: string)
      modifies this`header
      ensures header == old(header)[key := value]
    {
      header := header[key := value];
    }

    method WriteHeader(code: int)
      requires ValidCode(code)
      modifies this`status, this`superfluous
      ensures old(status) == 0 ==> status == code && superfluous == old(superfluous)
      ensures old(status) != 0 ==> status == old(status) && superfluous == old(superfluous) + 1
    {
      if status == 0 {
        status := code;
      } else {
        superfluous := superfluous + 1;
      }
    }

    method Write(p: Payload)
      modifies this`status, this`body
      ensures status == if old(status) == 0 then StatusOK else old(status)
      ensures body == old(body) + [p]
    {
      if status == 0 {
        status := StatusOK;
      }
      body := body + [p];
    }
  }

  /** Setting headers in two rounds is setting their union once. */
  lemma UnionAssoc(a: map<string, string>, b: map<string, string>, c: map<string, string>)
    ensures a + b + c == a + (b + c)
  {
  }

  /** http.Error: plain-text headers, the status, then the message and a newline. */
  method Error(w: ResponseWriter, msg: string, code: int)
    requires ValidCode(code)
    modifies w
    ensures w.header == old(w.header) + TextReply(msg, code).headers
    ensures old(w.status) == 0 ==> w.status == code && w.superfluous == old(w.superfluous)
    ensures old(w.status) != 0 ==> w.status == old(w.status) && w.superfluous == old(w.superfluous) + 1
    ensures w.body == old(w.body) + TextReply(msg, code).body
  {
    w.SetHeader(ContentType, "text/plain; charset=utf-8");
    w.SetHeader("X-Content-Type-Options", "nosniff");
    assert w.header == old(w.header) + TextHeaders;
    w.WriteHeader(code);
    w.Write(TextBody(msg + "\n"));
  }
}
