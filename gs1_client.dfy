/** The browser-side GS1 client: a token cache held in module state, the
    validation and payload of a product registration, and the mapping of
    the registry's error replies. The clock and the two network exchanges
    are inputs. */
module Gs1Client {
  import opened Wrappers
  import opened Text
  import opened Http
  import opened Records

  /** `tokenCache.expiresAt`: a number of milliseconds, or NaN when the
      token reply carried no numeric `expires_in`. */
  datatype Expiry = At(ms: int) | NaN

  /** `tokenCache`; a null or missing token is the empty string. */
  datatype TokenCache = TokenCache(token: string, expiresAt: Expiry)

  /** `{ token: null, expiresAt: 0 }`. */
  const InitialCache := TokenCache("", At(0))

  /** The reuse test of `getToken`: a token is present and the clock is
      still before its expiry (every comparison with NaN is false). */
  predicate Fresh(c: TokenCache, now: int) {
    c.token != "" && c.expiresAt.At? && now < c.expiresAt.ms
  }

  /** `Date.now() + (data.expires_in - 60) * 1000`, read at `issued`. */
  function ExpiryAfter(data: Json, issued: int): (e: Expiry)
    ensures data.Object? && "expires_in" in data.numbers ==>
      e == At(issued + (data.numbers["expires_in"] - 60) * 1000)
    ensures data.NotJson? || "expires_in" !in data.numbers ==> e == NaN
  {
    if data.Object? && "expires_in" in data.numbers then At(issued + (data.numbers["expires_in"] - 60) * 1000)
    else NaN
  }

  const AuthFailed := "GS1 Auth falhou: "
  const Dash := " \U{2014} "

  /** The state after one `getToken` call, what it returns or throws, and
      whether it sent a token request. */
  datatype Acquired = Acquired(cache: TokenCache, token: Result<string, Failure>, exchanged: bool)

  /** `getToken` as a function of the cache, the clock at the reuse test
      (`now`), the token exchange's reply and the clock once that reply
      has been read (`issued`). */
  function Acquire(c: TokenCache, now: int, reply: Reply, issued: int): (a: Acquired)
    // reuse while fresh, without a request
    ensures Fresh(c, now) ==> a == Acquired(c, Ok(c.token), false)
    ensures !Fresh(c, now) ==> a.exchanged
    // a failed exchange throws and leaves the cache as it was
    ensures a.token.Err? ==> a.cache == c
    ensures !Fresh(c, now) && reply.Reply? && !IsOk(reply.status) ==>
      a.token == Err(Message(AuthFailed + StatusText(reply.status) + Dash + reply.text))
    ensures !Fresh(c, now) && reply.NetworkError? ==> a.token == Err(Message(reply.message))
    // a successful exchange stores the new token and its expiry
    ensures a.exchanged && a.token.Ok? <==> !Fresh(c, now) && reply.Reply? && IsOk(reply.status) && reply.json.Object?
    ensures a.exchanged && a.token.Ok? ==>
      a.cache == TokenCache(Field(reply.json, "access_token"), ExpiryAfter(reply.json, issued)) &&
      a.token == Ok(a.cache.token)
  {
    if Fresh(c, now) then Acquired(c, Ok(c.token), false)
    else
      match reply
      case NetworkError(m) => Acquired(c, Err(Message(m)), true)
      case Reply(status, text, data) =>
        if !IsOk(status) then Acquired(c, Err(Message(AuthFailed + StatusText(status) + Dash + text)), true)
        else if data.NotJson? then Acquired(c, Err(EngineError), true)
        else
          var renewed := TokenCache(Field(data, "access_token"), ExpiryAfter(data, issued));
          Acquired(renewed, Ok(renewed.token), true)
  }

  /** A token granted for `expires_in` seconds is reused, without another
      request, by every later call up to 60 seconds before it runs out. */
  lemma {:induction false} GrantedTokenIsReused(c: TokenCache, now: int, reply: Reply, issued: int, later: int, next: Reply, issuedNext: int)
    requires !Fresh(c, now)
    requires reply.Reply? && IsOk(reply.status) && reply.json.Object?
    requires Field(reply.json, "access_token") != "" && "expires_in" in reply.json.numbers
    requires later - issued < (reply.json.numbers["expires_in"] - 60) * 1000
    ensures var a := Acquire(c, now, reply, issued);
      a.token == Ok(Field(reply.json, "access_token")) &&
      Acquire(a.cache, later, next, issuedNext) == Acquired(a.cache, a.token, false)
  {
    var a := Acquire(c, now, reply, issued);
    assert a.cache.expiresAt == At(issued + (reply.json.numbers["expires_in"] - 60) * 1000);
    assert Fresh(a.cache, later);
  }

  /** Once the clock reaches the expiry, the next call asks for a new
      token; a reply without `expires_in` makes every later call ask. */
  lemma {:induction false} ExpiredTokenIsRenewed(c: TokenCache, now: int, reply: Reply, issued: int)
    requires c.expiresAt.NaN? || (c.expiresAt.At? && c.expiresAt.ms <= now)
    ensures Acquire(c, now, reply, issued).exchanged
  {
    assert !Fresh(c, now);
  }

  /** The client's memory of the token between calls. */
  class Session {
    var cache: TokenCache

    constructor()
      ensures cache == InitialCache
    {
      cache := InitialCache;
    }

    /** `getToken`: reads and reassigns the cache. */
    method GetToken(now: int, reply: Reply, issued: int) returns (token: Result<string, Failure>, exchanged: bool)
      modifies this
      ensures Acquired(cache, token, exchanged) == Acquire(old(cache), now, reply, issued)
    {
      if cache.token != "" && cache.expiresAt.At? && now < cache.expiresAt.ms {
        return Ok(cache.token), false;
      }
      exchanged := true;
      match reply {
        case NetworkError(m) =>
          token := Err(Message(m));
        case Reply(status, text, data) =>
          if !IsOk(status) {
            token := Err(Message(AuthFailed + StatusText(status) + Dash + text));
            return;
          }
          if data.NotJson? {
            token := Err(EngineError);
            return;
          }
          cache := TokenCache(Field(data, "access_token"), ExpiryAfter(data, issued));
          token := Ok(cache.token);
      }
    }

    /** `registerProduct`: validation, then a token, then the product
        post; the reply is mapped by `ClientOutcome`. `exchanged` tells
        whether a token request went out. */
    method RegisterProduct(product: Record, cad: string, now: int, auth: Reply, issued: int, reply: Reply)
      returns (r: Result<Json, Failure>, sent: Option<ProductPost>, exchanged: bool)
      modifies this
      // a failed check comes before any token request
      ensures ClientCheck(product).Some? ==>
        r == Err(Message(ClientCheck(product).value)) && sent == None && cache == old(cache) && !exchanged
      ensures ClientCheck(product).None? ==>
        var a := Acquire(old(cache), now, auth, issued);
        cache == a.cache && exchanged == a.exchanged &&
        (a.token.Err? ==> r == Err(a.token.error) && sent == None) &&
        (a.token.Ok? ==> sent == Some(ProductPost(a.token.value, ClientPayloadOf(product, cad))) && r == ClientOutcome(reply))
    {
      var check := ClientCheck(product);
      if check.Some? {
        return Err(Message(check.value)), None, false;
      }
      var token;
      token, exchanged := GetToken(now, auth, issued);
      if token.Err? {
        return Err(token.error), None, exchanged;
      }
      sent := Some(ProductPost(token.value, ClientPayloadOf(product, cad)));
      r := ClientOutcome(reply);
    }
  }

  const EanRequired := "EAN/GTIN é obrigatório para registrar no GS1."
  const NomeRequired := "Nome do produto é obrigatório."

  /** The two checks of `registerProduct`, `ean` first. */
  function ClientCheck(p: Record): (e: Option<string>)
    ensures e == None <==> Str(p, "ean") != "" && Str(p, "nome") != ""
    ensures Str(p, "ean") == "" ==> e == Some(EanRequired)
    ensures Str(p, "ean") != "" && Str(p, "nome") == "" ==> e == Some(NomeRequired)
  {
    if Str(p, "ean") == "" then Some(EanRequired)
    else if Str(p, "nome") == "" then Some(NomeRequired)
    else None
  }

  const ProductType := "PRODUTO_COMERCIALIZADO"
  const Unit := "UN"

  datatype ClientPayload = ClientPayload(
    gtin: string, descricao: string, sku: string, ncm: string,
    cad: string, tipo: string, marca: string, unidadeMedida: string)

  /** The request the client sends: the bearer token and the payload. */
  datatype ProductPost = ProductPost(bearer: string, payload: ClientPayload)

  /** The registration payload. The GTIN is only stripped of non-digits,
      never padded; the brand is the SKU, or the name when there is none. */
  function ClientPayloadOf(p: Record, cad: string): (b: ClientPayload)
    ensures b.gtin == Digits(Str(p, "ean")) && b.ncm == Digits(Str(p, "ncm"))
    ensures AllDigits(b.gtin) && |b.gtin| <= |Str(p, "ean")|
    ensures AllDigits(Str(p, "ean")) ==> b.gtin == Str(p, "ean")
    ensures AllDigits(b.ncm) && (Str(p, "ncm") == "" ==> b.ncm == "")
    ensures b.descricao == Str(p, "nome") && b.sku == Str(p, "sku") && b.cad == cad
    ensures b.marca == (if Str(p, "sku") != "" then Str(p, "sku") else Str(p, "nome"))
    ensures b.tipo == ProductType && b.unidadeMedida == Unit
  {
    ClientPayload(
      Digits(Str(p, "ean")), Str(p, "nome"), Str(p, "sku"), Digits(Str(p, "ncm")),
      cad, ProductType, Or(Str(p, "sku"), Str(p, "nome")), Unit)
  }

  /** Posting the sent GTIN and NCM back as the product's `ean` and `ncm`
      yields the same payload: the digit cleaning is done once and for all. */
  lemma {:induction false} ClientPayloadOfStable(p: Record, cad: string)
    ensures var b := ClientPayloadOf(p, cad);
      ClientPayloadOf(p["ean" := b.gtin]["ncm" := b.ncm], cad) == b
  {
    var b := ClientPayloadOf(p, cad);
    var q := p["ean" := b.gtin]["ncm" := b.ncm];
    DigitsIdempotent(Str(p, "ean"));
    DigitsIdempotent(Str(p, "ncm"));
    assert Str(q, "ean") == b.gtin && Str(q, "ncm") == b.ncm;
    assert Str(q, "nome") == Str(p, "nome") && Str(q, "sku") == Str(p, "sku");
  }

  /** `Erro <status>`. */
  function ErrorStatus(status: nat): string {
    "Erro " + StatusText(status)
  }

  /** The message `registerProduct` throws for a non-ok reply as the code
      is written: the friendly message thrown inside the `try` is caught by
      the same statement's `catch`, so the raw body is always reported. */
  function ClientErrorAsWritten(status: nat, text: string, data: Json): (m: string)
    ensures m == ErrorStatus(status) + ": " + text
    ensures EndsWith(m, text)
    ensures |m| > 5 && m[..5] == "Erro "
  {
    var m := ErrorStatus(status) + ": " + text;
    assert m == "Erro " + (StatusText(status) + ": " + text);
    m
  }

  /** The message the client evidently means to throw: the body's
      `message`, else its `error_description`, else `Erro <status>`, and
      the raw body only when the body is not JSON. */
  function ClientErrorMessage(status: nat, text: string, data: Json): (m: string)
    ensures data.Object? && Field(data, "message") != "" ==> m == Field(data, "message")
    ensures data.Object? && Field(data, "message") == "" && Field(data, "error_description") != "" ==>
      m == Field(data, "error_description")
    ensures data.Object? && Field(data, "message") == "" && Field(data, "error_description") == "" ==>
      m == ErrorStatus(status)
    ensures data.NotJson? ==> m == ClientErrorAsWritten(status, text, data)
  {
    if data.Object? then Or(Or(Field(data, "message"), Field(data, "error_description")), ErrorStatus(status))
    else ClientErrorAsWritten(status, text, data)
  }

  /** A registry reply whose JSON `message` is anything but the literal
      `Erro <status>: <body>` reaches the user, as written, as
      `Erro <status>: <body>` instead of that message. */
  lemma FriendlyMessageLost(status: nat, text: string, data: Json)
    requires data.Object? && Field(data, "message") != ""
    requires Field(data, "message") != ErrorStatus(status) + ": " + text
    ensures ClientErrorAsWritten(status, text, data) != ClientErrorMessage(status, text, data)
  {
  }

  /** What `registerProduct` returns or throws once the product post was
      sent: a non-ok reply becomes an error (`ClientErrorMessage`), an ok
      reply its parsed body. */
  function ClientOutcome(reply: Reply): (r: Result<Json, Failure>)
    ensures r.Ok? <==> reply.Reply? && IsOk(reply.status) && reply.json.Object?
    ensures r.Ok? ==> r.value == reply.json
    ensures reply.Reply? && !IsOk(reply.status) ==>
      r == Err(Message(ClientErrorMessage(reply.status, reply.text, reply.json)))
  {
    match reply
    case NetworkError(m) => Err(Message(m))
    case Reply(status, text, data) =>
      if !IsOk(status) then Err(Message(ClientErrorMessage(status, text, data)))
      else if data.NotJson? then Err(EngineError)
      else Ok(data)
  }

  /** `registerProduct`'s result as the code is written: a non-ok reply
      always reports `Erro <status>: <body>`. */
  function ClientOutcomeAsWritten(reply: Reply): (r: Result<Json, Failure>)
    ensures reply.Reply? && !IsOk(reply.status) ==>
      r == Err(Message(ClientErrorAsWritten(reply.status, reply.text, reply.json)))
    ensures !(reply.Reply? && !IsOk(reply.status)) ==> r == ClientOutcome(reply)
  {
    match reply
    case NetworkError(m) => Err(Message(m))
    case Reply(status, text, data) =>
      if !IsOk(status) then Err(Message(ClientErrorAsWritten(status, text, data)))
      else if data.NotJson? then Err(EngineError)
      else Ok(data)
  }

  /** The two readings of `registerProduct` agree except on a non-ok JSON
      reply, and there they part exactly when the body's friendly message
      is lost. */
  lemma {:induction false} ClientOutcomeAsWrittenDiffers(reply: Reply)
    ensures ClientOutcomeAsWritten(reply) != ClientOutcome(reply) <==>
      reply.Reply? && !IsOk(reply.status) &&
      ClientErrorAsWritten(reply.status, reply.text, reply.json) !=
        ClientErrorMessage(reply.status, reply.text, reply.json)
  {
  }
}
