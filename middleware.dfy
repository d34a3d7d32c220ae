/**
 * The JSON content-type guard (middleware/json.go): a request that declares a
 * body type other than JSON is refused with a plain-text 415; any other request
 * reaches the wrapped handler with the reply's Content-Type preset to JSON.
 */
module Middleware {
  import opened Http
  import opened Repository
  import opened Handler
  import opened Zap

  const NotJson := "Content-Type header is not application/json"

  /**
   * The request's Content-Type header is absent or empty (Header.Get gives "" for
   * both), or exactly "application/json".
   * Nothing else passes: no other media type, and no parameter such as a charset.
   */
  function AcceptsContentType(contentType: string): (ok: bool)
    ensures ok ==> forall i :: 0 <= i < |contentType| ==> contentType[i] != ';' && contentType[i] != ' '
    ensures contentType == "" ==> ok
  {
    contentType == "" || contentType == ApplicationJson
  }

  /** The handler's outcome under a reply whose Content-Type was preset to JSON. */
  function Preset(o: Outcome): (p: Outcome)
    ensures p.reply.headers == JsonHeaders + o.reply.headers
    ensures p.reply.status == o.reply.status && p.reply.body == o.reply.body
    ensures p.calls == o.calls && p.db == o.db && p.log == o.log
  {
    o.(reply := o.reply.(headers := JsonHeaders + o.reply.headers))
  }

  /** JSONMiddleware wrapped around UserHandler, for one request against table `db`. */
  function JSONMiddlewareSpec(r: Request, db: Table, env: Env): (o: Outcome)
    requires TableValid(db)
    ensures TableValid(o.db)
    ensures !AcceptsContentType(r.contentType) ==> o == Outcome(TextReply(NotJson, 415), [], db, [])
    ensures AcceptsContentType(r.contentType) ==> o == Preset(ServeSpec(r, db, env))
    ensures o.reply.status in {200, 201, 400, 404, 405, 415, 500}
  {
    if !AcceptsContentType(r.contentType) then
      Outcome(TextReply(NotJson, StatusUnsupportedMediaType), [], db, [])
    else
      Preset(ServeSpec(r, db, env))
  }

  /** A handler that answered `o` under a preset JSON Content-Type has answered Preset(o). */
  lemma PresetAnswered(next: UserHandler, w: ResponseWriter, header0: map<string, string>, superfluous0: nat,
                       calls0: seq<Call>, log0: seq<Entry>, o: Outcome)
    requires next.Answered(w, header0 + JsonHeaders, superfluous0, calls0, log0, o)
    ensures next.Answered(w, header0, superfluous0, calls0, log0, Preset(o))
  {
    UnionAssoc(header0, JsonHeaders, o.reply.headers);
  }

  /** JSONMiddleware(next).ServeHTTP: the guard, the preset header, then the wrapped handler. */
  method JSONMiddleware(next: UserHandler, w: ResponseWriter, r: Request, env: Env)
    requires w.Unsent() && next.UserRepo.Valid()
    modifies w, next.Log, next.UserRepo
    ensures next.Answered(w, old(w.header), old(w.superfluous), old(next.UserRepo.calls), old(next.Log.entries),
                          JSONMiddlewareSpec(r, old(next.UserRepo.db), env))
  {
    if r.contentType != "" && r.contentType != ApplicationJson {
      Http.Error(w, NotJson, StatusUnsupportedMediaType);
      return;
    }
    Forward(next, w, r, env);
  }

  /** The accepted path: preset the JSON Content-Type, then let the wrapped handler answer. */
  method Forward(next: UserHandler, w: ResponseWriter, r: Request, env: Env)
    requires w.Unsent() && next.UserRepo.Valid()
    modifies w, next.Log, next.UserRepo
    ensures next.Answered(w, old(w.header), old(w.superfluous), old(next.UserRepo.calls), old(next.Log.entries),
                          Preset(ServeSpec(r, old(next.UserRepo.db), env)))
  {
    ghost var inner := ServeSpec(r, next.UserRepo.db, env);
    ghost var h0 := w.header;
    w.SetHeader(ContentType, ApplicationJson);
    assert w.header == h0 + JsonHeaders;
    next.UserHandler(w, r, env);
    PresetAnswered(next, w, h0, old(w.superfluous), old(next.UserRepo.calls), old(next.Log.entries), inner);
  }

  /** Only an absent header or the exact media type passes; parameters such as a charset do not. */
  lemma ContentTypeExamples()
    ensures AcceptsContentType("")
    ensures AcceptsContentType("application/json")
    ensures !AcceptsContentType("application/json; charset=utf-8")
    ensures !AcceptsContentType("text/plain")
  {
    assert "application/json; charset=utf-8"[16] == ';';
  }

  /** Every reply that leaves through the middleware names its Content-Type. */
  lemma RepliesCarryContentType(r: Request, db: Table, env: Env)
    requires TableValid(db)
    ensures ContentType in JSONMiddlewareSpec(r, db, env).reply.headers
  {
  }

  /** A JSON-compatible request is served exactly as the wrapped handler serves it, status and state alike. */
  lemma AcceptedIsTransparent(r: Request, db: Table, env: Env)
    requires TableValid(db) && AcceptsContentType(r.contentType)
    ensures var o := JSONMiddlewareSpec(r, db, env); var inner := ServeSpec(r, db, env);
      o.reply.status == inner.reply.status && o.reply.body == inner.reply.body &&
      o.calls == inner.calls && o.db == inner.db && o.log == inner.log
  {
  }
}
