/**
 * The `auth` middleware of middleware/auth.js: it reads the raw token from
 * the `x-auth-token` header, rejects the request with 401 when the header
 * is missing or empty, asks the token codec to verify it otherwise, rejects
 * with 401 when verification fails, and on success stores the decoded
 * payload as `req.user` and passes the request on with `next()`.
 */
module AuthGate {
  import opened Http
  import opened Models

  const TokenHeader := "x-auth-token"
  const NoTokenMsg := "No token, authorization denied"
  const BadTokenMsg := "Token is not valid"

  /** The decoded token payload; the handlers read only its `id` claim. */
  datatype Payload = Payload(id: UserId)

  /** The middleware's verdict: a rejection it sends, or the identity it passes on. */
  datatype Decision = Reject(status: int, msg: string) | Proceed(user: Payload)

  /** `if (!token)` fails: the header is present and non-empty. */
  predicate HasToken(header: Option<string>)
  {
    header.Some? && header.value != ""
  }

  /**
   * The middleware's decision for a header value, given the verification
   * function of the codec (`None` stands for `jwt.verify` throwing).
   * Every rejection is a 401; the request proceeds exactly when a token is
   * present and verifies, and then with the payload the codec decoded.
   */
  function Gate(header: Option<string>, decode: string -> Option<Payload>): (d: Decision)
    ensures d.Reject? ==> d.status == StatusUnauthorized
    ensures d.Proceed? <==> HasToken(header) && decode(header.value).Some?
    ensures d.Proceed? ==> decode(header.value) == Some(d.user)
    ensures !HasToken(header) ==> d.msg == NoTokenMsg
    ensures HasToken(header) && d.Reject? ==> d.msg == BadTokenMsg
  {
    if !HasToken(header) then Reject(StatusUnauthorized, NoTokenMsg)
    else
      match decode(header.value)
      case None => Reject(StatusUnauthorized, BadTokenMsg)
      case Some(p) => Proceed(p)
  }

  /** Without a token the codec is never consulted: the decision does not depend on it. */
  lemma NoTokenIgnoresCodec(header: Option<string>, decode1: string -> Option<Payload>, decode2: string -> Option<Payload>)
    requires !HasToken(header)
    ensures Gate(header, decode1) == Gate(header, decode2) == Reject(StatusUnauthorized, NoTokenMsg)
  {
  }

  /** An inbound request: its headers, and the `user` slot the middleware fills. */
  class Request {
    const headers: map<string, string>
    var user: Option<Payload>

    constructor (headers: map<string, string>)
      ensures this.headers == headers && user == None
    {
      this.headers := headers;
      user := None;
    }

    /** `req.header(name)`: the value of the header, undefined when absent. */
    function Header(name: string): (v: Option<string>)
      ensures v.Some? <==> name in headers
      ensures v.Some? ==> v.value == headers[name]
    {
      if name in headers then Some(headers[name]) else None
    }
  }

  /** The responses written to the client so far, in order. */
  class Writer<D> {
    var sent: seq<Response<D>>

    constructor ()
      ensures sent == []
    {
      sent := [];
    }

    method Send(r: Response<D>)
      modifies this`sent
      ensures sent == old(sent) + [r]
    {
      sent := sent + [r];
    }
  }

  /** `jwt.verify` with the configured secret, and how often it has been called. */
  class TokenCodec {
    const decode: string -> Option<Payload>
    var calls: nat

    constructor (decode: string -> Option<Payload>)
      ensures this.decode == decode && calls == 0
    {
      this.decode := decode;
      calls := 0;
    }

    method Verify(token: string) returns (r: Option<Payload>)
      modifies this`calls
      ensures r == decode(token)
      ensures calls == old(calls) + 1
    {
      r := decode(token);
      calls := calls + 1;
    }
  }

  /**
   * The middleware. It returns whether `next()` was called. Exactly one of
   * "a 401 is sent" and "`next()` is called" happens; `req.user` is set only
   * on success, to the decoded payload; the codec is called once when a token
   * is present and not at all otherwise.
   */
  method Auth<D>(req: Request, res: Writer<D>, codec: TokenCodec) returns (next: bool)
    modifies req`user, res`sent, codec`calls
    ensures next <==> Gate(req.Header(TokenHeader), codec.decode).Proceed?
    ensures next ==> req.user == Some(Gate(req.Header(TokenHeader), codec.decode).user)
    ensures next ==> res.sent == old(res.sent)
    ensures !next ==> req.user == old(req.user)
    ensures !next ==> res.sent == old(res.sent) + [Response(StatusUnauthorized, Msg(Gate(req.Header(TokenHeader), codec.decode).msg))]
    ensures codec.calls == old(codec.calls) + if HasToken(req.Header(TokenHeader)) then 1 else 0
  {
    var token := req.Header(TokenHeader);
    if !HasToken(token) {
      res.Send(Response(StatusUnauthorized, Msg(NoTokenMsg)));
      return false;
    }
    var decoded := codec.Verify(token.value);
    if decoded.None? {
      res.Send(Response(StatusUnauthorized, Msg(BadTokenMsg)));
      return false;
    }
    req.user := decoded;
    next := true;
  }
}
