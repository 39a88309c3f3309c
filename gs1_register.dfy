/** The serverless handler `POST /api/gs1-register`: validates the posted
    product, obtains a token, posts the registration and maps the
    registry's reply. The two exchanges' replies are inputs. */
module Gs1Register {
  import opened Wrappers
  import opened Text
  import opened Http
  import opened Records
  import opened Gs1Proxy

  /** The request as the handler reads it; a missing body is `None`. */
  datatype Request = Request(verb: string, body: Option<Record>)

  const EanRequired := "EAN/GTIN é obrigatório."
  const NomeRequired := "Nome do produto é obrigatório."

  /** `req.body || {}`. */
  function BodyOf(req: Request): (b: Record)
    ensures req.body.None? ==> b == map[]
    ensures req.body.Some? ==> b == req.body.value
  {
    if req.body.Some? then req.body.value else map[]
  }

  /** The key type the payload declares for a normalised GTIN. */
  function KeyCode(gtin: string): string {
    if |gtin| == 14 then "GTIN_14" else "GTIN_13"
  }

  /** The registration payload built from the posted fields. */
  function PayloadOf(b: Record, cad: string): (p: RegisterPayload)
    ensures p.gtin == NormalizeGtin(Str(b, "ean"))
    // a GTIN of at most 14 digits is declared a GTIN-14, a longer one a GTIN-13
    ensures p.keyCode == (if |Digits(Str(b, "ean"))| <= 14 then "GTIN_14" else "GTIN_13")
    ensures p.description == Str(b, "nome") && p.cad == cad
    ensures p.brandName == (if Str(b, "sku") != "" then Str(b, "sku") else Str(b, "nome"))
    // the NCM block is present exactly when an NCM was posted, carrying its digits
    ensures p.classification.Some? <==> Str(b, "ncm") != ""
    ensures p.classification.Some? ==> p.classification.value == Classification("NCM", Digits(Str(b, "ncm")))
    ensures p.gtinStatusCode == "ACTIVE" && p.languageCode == "pt-BR" && p.shareDataIndicator
  {
    var gtin := NormalizeGtin(Str(b, "ean"));
    RegisterPayload(
      cad, "ACTIVE", KeyCode(gtin), gtin,
      Str(b, "nome"), Or(Str(b, "sku"), Str(b, "nome")), "pt-BR",
      if Str(b, "ncm") != "" then Some(Classification("NCM", Digits(Str(b, "ncm")))) else None,
      true)
  }

  /** The error text for a non-ok registry reply: the body's `message`,
      else its `error_description`, else `Erro <status>`; a body that is not
      JSON is reported by at most 300 of its characters. */
  function UpstreamError(status: nat, text: string, data: Json): (e: string)
    ensures data.Object? && Field(data, "message") != "" ==> e == Field(data, "message")
    ensures data.Object? && Field(data, "message") == "" && Field(data, "error_description") != "" ==>
      e == Field(data, "error_description")
    ensures data.Object? && Field(data, "message") == "" && Field(data, "error_description") == "" ==>
      e == "Erro " + StatusText(status)
    ensures data.NotJson? ==> e == "Erro " + StatusText(status) + ": " + Take(text, 300)
  {
    if data.Object? then Or(Or(Field(data, "message"), Field(data, "error_description")), "Erro " + StatusText(status))
    else "Erro " + StatusText(status) + ": " + Take(text, 300)
  }

  /** The response to the registry's reply to the product post. */
  function RegistryResponse(reply: Reply): (r: Response)
    // a refusal passes the registry's status through
    ensures reply.Reply? && !IsOk(reply.status) ==>
      r == Response(reply.status, Error(Message(UpstreamError(reply.status, reply.text, reply.json))))
    ensures r.status == 200 <==> reply.Reply? && IsOk(reply.status) && reply.json.Object?
    ensures r.status == 200 && reply.json.Object? ==> r.body == Passthrough(reply.json)
    ensures reply.NetworkError? ==> r == Response(500, Error(Message(reply.message)))
    ensures reply.Reply? && IsOk(reply.status) && reply.json.NotJson? ==> r == Response(500, Error(EngineError))
  {
    match reply
    case NetworkError(m) => Response(500, Error(Message(m)))
    case Reply(status, text, data) =>
      if !IsOk(status) then Response(status, Error(Message(UpstreamError(status, text, data))))
      else if data.NotJson? then Response(500, Error(EngineError))
      else Response(200, Passthrough(data))
  }

  /** The handler. */
  function Handle(req: Request, env: Env, auth: Reply, registry: Reply): (o: Outcome)
    ensures req.verb != "POST" ==> o == Outcome(Response(405, Error(Message(MethodNotAllowed))), [])
    // `ean` is checked before `nome`, both before anything is sent
    ensures req.verb == "POST" && Str(BodyOf(req), "ean") == "" ==>
      o == Outcome(Response(400, Error(Message(EanRequired))), [])
    ensures req.verb == "POST" && Str(BodyOf(req), "ean") != "" && Str(BodyOf(req), "nome") == "" ==>
      o == Outcome(Response(400, Error(Message(NomeRequired))), [])
    // missing credentials are reported before any request
    ensures o.calls == [] <==>
      req.verb != "POST" || Str(BodyOf(req), "ean") == "" || Str(BodyOf(req), "nome") == "" || !HasCredentials(env)
    ensures req.verb == "POST" && Str(BodyOf(req), "ean") != "" && Str(BodyOf(req), "nome") != "" && !HasCredentials(env) ==>
      o == Outcome(Response(500, Error(Message(MissingCredentials))), [])
    // otherwise a token request is sent, and a product post once a token is granted
    ensures o.calls != [] ==> o.calls[0] == TokenRequest(env.clientId, env.clientSecret, env.username, env.password)
    ensures o.calls != [] && ProxyToken(auth).Err? ==>
      o == Outcome(Response(500, Error(ProxyToken(auth).error)), o.calls[..1])
    ensures o.calls != [] && ProxyToken(auth).Ok? ==>
      |o.calls| == 2 &&
      o.calls[1] == ProductPost(env.clientId, ProxyToken(auth).value, PayloadOf(BodyOf(req), env.cad)) &&
      o.response == RegistryResponse(registry)
  {
    var b := BodyOf(req);
    if req.verb != "POST" then Outcome(Response(405, Error(Message(MethodNotAllowed))), [])
    else if Str(b, "ean") == "" then Outcome(Response(400, Error(Message(EanRequired))), [])
    else if Str(b, "nome") == "" then Outcome(Response(400, Error(Message(NomeRequired))), [])
    else if !HasCredentials(env) then Outcome(Response(500, Error(Message(MissingCredentials))), [])
    else
      var tokenCall := TokenRequest(env.clientId, env.clientSecret, env.username, env.password);
      match ProxyToken(auth)
      case Err(f) => Outcome(Response(500, Error(f)), [tokenCall])
      case Ok(token) =>
        Outcome(RegistryResponse(registry), [tokenCall, ProductPost(env.clientId, token, PayloadOf(b, env.cad))])
  }
}
