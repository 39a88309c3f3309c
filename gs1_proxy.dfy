/** What the two serverless GS1 handlers share: their configuration, the
    token exchange they both perform, the requests they can send and the
    responses they give. */
module Gs1Proxy {
  import opened Wrappers
  import opened Text
  import opened Http

  /** The handler's environment; an unset variable is the empty string. */
  datatype Env = Env(clientId: string, clientSecret: string, username: string, password: string, cad: string)

  /** `clientId && clientSecret && username && password`. */
  predicate HasCredentials(env: Env) {
    env.clientId != "" && env.clientSecret != "" && env.username != "" && env.password != ""
  }

  const MissingCredentials := "Credenciais GS1 não configuradas no servidor."
  const MethodNotAllowed := "Method not allowed"

  /** A request a handler sends to the registry. */
  datatype Call =
    | TokenRequest(clientId: string, clientSecret: string, username: string, password: string)
    | ProductPost(clientId: string, accessToken: string, payload: RegisterPayload)
    | ProductGet(clientId: string, accessToken: string, gtin: string)

  /** An NCM entry of `additionalTradeItemClassifications`. */
  datatype Classification = Classification(systemCode: string, codeValue: string)

  /** The registration payload of the register handler. */
  datatype RegisterPayload = RegisterPayload(
    cad: string, gtinStatusCode: string, keyCode: string, gtin: string,
    description: string, brandName: string, languageCode: string,
    classification: Option<Classification>, shareDataIndicator: bool)

  /** The JSON a handler responds with. */
  datatype Body =
    | Error(reason: Failure)
    | ErrorDetails(error: string, details: string)
    | Lookup(found: bool, source: string, product: Option<Json>)
    | Passthrough(data: Json)

  datatype Response = Response(status: nat, body: Body)

  /** A response and the requests sent before it, in order. */
  datatype Outcome = Outcome(response: Response, calls: seq<Call>)

  const AuthFailed := "GS1 auth falhou: "
  const InvalidAuthReply := "GS1 auth: resposta inválida"
  const NoToken := "Token não retornado: "
  const Dash := " \U{2014} "

  /** The handlers' `getToken` on the token request's reply. */
  function ProxyToken(reply: Reply): (r: Result<string, Failure>)
    // it never surfaces an engine error: every throw carries a message
    ensures r.Err? ==> r.error.Message?
    ensures r.Ok? <==> reply.Reply? && IsOk(reply.status) && reply.json.Object? && Field(reply.json, "access_token") != ""
    ensures r.Ok? ==> r.value == Field(reply.json, "access_token")
    // a refused exchange reports at most 300 characters of the reply
    ensures reply.Reply? && !IsOk(reply.status) ==>
      r == Err(Message(AuthFailed + StatusText(reply.status) + Dash + Take(reply.text, 300)))
    // a reply that is not JSON reports at most 200 characters of it
    ensures reply.Reply? && IsOk(reply.status) && reply.json.NotJson? ==>
      r == Err(Message(InvalidAuthReply + Dash + Take(reply.text, 200)))
    ensures reply.Reply? && IsOk(reply.status) && reply.json.Object? && Field(reply.json, "access_token") == "" ==>
      r == Err(Message(NoToken + Take(reply.json.serialized, 200)))
  {
    match reply
    case NetworkError(m) => Err(Message(m))
    case Reply(status, text, data) =>
      if !IsOk(status) then Err(Message(AuthFailed + StatusText(status) + Dash + Take(text, 300)))
      else if data.NotJson? then Err(Message(InvalidAuthReply + Dash + Take(text, 200)))
      else if Field(data, "access_token") == "" then Err(Message(NoToken + Take(data.serialized, 200)))
      else Ok(Field(data, "access_token"))
  }

  /** The digits of `ean` left-padded with '0' to 14 characters. */
  function NormalizeGtin(ean: string): (g: string)
    ensures AllDigits(g)
    ensures |g| == if |Digits(ean)| < 14 then 14 else |Digits(ean)|
    ensures EndsWith(g, Digits(ean))
    ensures forall i :: 0 <= i < |g| - |Digits(ean)| ==> g[i] == '0'
  {
    var g := PadStart(Digits(ean), 14, '0');
    assert forall i :: 0 <= i < |g| ==> IsDigit(g[i]) by {
      forall i | 0 <= i < |g| ensures IsDigit(g[i]) {
        if i >= |g| - |Digits(ean)| {
          assert g[i] == Digits(ean)[i - (|g| - |Digits(ean)|)];
        }
      }
    }
    g
  }

  /** A GTIN that already has 14 digits is sent as it is. */
  lemma {:induction false} NormalizeGtinOfGtin14(ean: string)
    requires AllDigits(ean) && |ean| == 14
    ensures NormalizeGtin(ean) == ean
  {
    assert Digits(ean) == ean;
    var g := NormalizeGtin(ean);
    assert |g| == 14;
    assert g[|g| - |ean|..] == ean;
  }

  /** Stripping and padding again changes nothing. */
  lemma {:induction false} NormalizeGtinIdempotent(ean: string)
    ensures NormalizeGtin(NormalizeGtin(ean)) == NormalizeGtin(ean)
  {
    var g := NormalizeGtin(ean);
    assert Digits(g) == g;
    var h := NormalizeGtin(g);
    assert |h| == |g|;
    assert h[|h| - |g|..] == g;
  }
}
