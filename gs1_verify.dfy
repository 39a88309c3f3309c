/** The serverless handler `GET /api/gs1-verify?ean=…`: looks a GTIN up
    in the company's own registrations. A 404 is an answer, not an error. */
module Gs1Verify {
  import opened Wrappers
  import opened Text
  import opened Http
  import opened Records
  import opened Gs1Proxy

  /** The request as the handler reads it: its method and query string. */
  datatype Request = Request(verb: string, query: Record)

  const EanRequired := "Parâmetro ean obrigatório."
  const OwnSource := "own"

  /** The response to the registry's reply to the lookup. */
  function LookupResponse(reply: Reply): (r: Response)
    ensures reply.Reply? && IsOk(reply.status) && reply.json.Object? ==>
      r == Response(200, Lookup(true, OwnSource, Some(reply.json)))
    // not found is a negative answer
    ensures reply.Reply? && reply.status == 404 ==> r == Response(200, Lookup(false, OwnSource, None))
    // any other status is echoed back with at most 300 characters of the body
    ensures reply.Reply? && !IsOk(reply.status) && reply.status != 404 ==>
      r.status == reply.status && r.body.ErrorDetails? &&
      r.body.error == "GS1 erro " + StatusText(reply.status) &&
      r.body.details == Take(reply.text, 300) &&
      |r.body.details| <= 300 && |r.body.details| <= |reply.text| && r.body.details == reply.text[..|r.body.details|] &&
      (|reply.text| <= 300 ==> r.body.details == reply.text)
    ensures reply.NetworkError? ==> r == Response(500, Error(Message(reply.message)))
    ensures reply.Reply? && IsOk(reply.status) && reply.json.NotJson? ==> r == Response(500, Error(EngineError))
  {
    match reply
    case NetworkError(m) => Response(500, Error(Message(m)))
    case Reply(status, text, data) =>
      if IsOk(status) then
        if data.Object? then Response(200, Lookup(true, OwnSource, Some(data)))
        else Response(500, Error(EngineError))
      else if status == 404 then Response(200, Lookup(false, OwnSource, None))
      else Response(status, ErrorDetails("GS1 erro " + StatusText(status), Take(text, 300)))
  }

  /** The handler. */
  function Handle(req: Request, env: Env, auth: Reply, registry: Reply): (o: Outcome)
    ensures req.verb != "GET" ==> o == Outcome(Response(405, Error(Message(MethodNotAllowed))), [])
    ensures req.verb == "GET" && Str(req.query, "ean") == "" ==>
      o == Outcome(Response(400, Error(Message(EanRequired))), [])
    // missing credentials are reported before any request
    ensures o.calls == [] <==> req.verb != "GET" || Str(req.query, "ean") == "" || !HasCredentials(env)
    ensures req.verb == "GET" && Str(req.query, "ean") != "" && !HasCredentials(env) ==>
      o == Outcome(Response(500, Error(Message(MissingCredentials))), [])
    ensures o.calls != [] ==> o.calls[0] == TokenRequest(env.clientId, env.clientSecret, env.username, env.password)
    ensures o.calls != [] && ProxyToken(auth).Err? ==>
      o == Outcome(Response(500, Error(ProxyToken(auth).error)), o.calls[..1])
    // the lookup asks for the GTIN padded to 14 digits
    ensures o.calls != [] && ProxyToken(auth).Ok? ==>
      |o.calls| == 2 &&
      o.calls[1] == ProductGet(env.clientId, ProxyToken(auth).value, NormalizeGtin(Str(req.query, "ean"))) &&
      o.response == LookupResponse(registry)
  {
    if req.verb != "GET" then Outcome(Response(405, Error(Message(MethodNotAllowed))), [])
    else if Str(req.query, "ean") == "" then Outcome(Response(400, Error(Message(EanRequired))), [])
    else
      var gtin := NormalizeGtin(Str(req.query, "ean"));
      if !HasCredentials(env) then Outcome(Response(500, Error(Message(MissingCredentials))), [])
      else
        var tokenCall := TokenRequest(env.clientId, env.clientSecret, env.username, env.password);
        match ProxyToken(auth)
        case Err(f) => Outcome(Response(500, Error(f)), [tokenCall])
        case Ok(token) => Outcome(LookupResponse(registry), [tokenCall, ProductGet(env.clientId, token, gtin)])
  }

  /** A GTIN is looked up by at least 14 digits whatever the user typed:
      a shorter code is padded with zeros on the left. */
  lemma {:induction false} LookupGtinIs14Digits(ean: string)
    requires |Digits(ean)| <= 14
    ensures |NormalizeGtin(ean)| == 14 && AllDigits(NormalizeGtin(ean))
    ensures NormalizeGtin(ean) == seq(14 - |Digits(ean)|, _ => '0') + Digits(ean)
  {
    var g := NormalizeGtin(ean);
    var d := Digits(ean);
    assert g[14 - |d|..] == d;
    assert g[..14 - |d|] == seq(14 - |d|, _ => '0');
    assert g == g[..14 - |d|] + g[14 - |d|..];
  }
}
