/**
 * The bearer-token gate in front of the protected routes. It takes the
 * token from the `Authorization` header, hands it to the access-token
 * verifier, and either rejects the request with status 401 or records the
 * user and passes the request on.
 *
 * The verifier (signature and expiry checks on a JSON Web Token) is an
 * oracle `verify: string -> Verification`: it either yields a payload or
 * throws an error identified by its name.
 */
module AuthMiddleware {
  import opened Optional
  import Text

  /** The two claims of a verified payload the gate looks at; a payload that
      is not an object (a bare string) has neither. */
  datatype Claims = Claims(id: Option<string>, email: Option<string>)

  /** What the verifier does with a token: returns a payload (None for a
      falsy one) or throws an error with the given `name`. */
  datatype Verification = Verified(payload: Option<Claims>) | Thrown(name: string)

  /** The user recorded on the request. */
  datatype User = User(id: string, email: string)

  /** The gate's decision: answer with a status and a message, or record the
      user and call the next handler. */
  datatype Verdict = Reject(status: int, message: string) | Accept(user: User)

  const Unauthorized := 401
  const NoTokenMessage := "Erişim reddedildi. Token bulunamadı."
  const BadFormatMessage := "Geçersiz token formatı."
  const ExpiredMessage := "Token süresi dolmuş. Lütfen tekrar giriş yapın."
  const InvalidMessage := "Geçersiz token."
  const UnverifiedMessage := "Token doğrulanamadı."

  /** `authHeader && authHeader.split(' ')[1]`, kept only when truthy: the
      second space-separated field of the header, if there is one and it is
      not empty. The first field is not checked to be "Bearer". An empty
      header splits into a single field and so has no token. */
  function ExtractToken(header: Option<string>): (token: Option<string>)
    ensures token.Some? ==> token.value != "" && ' ' !in token.value
  {
    match header
    case None => None
    case Some(h) =>
      var fields := Text.Split(h, ' ');
      if |fields| > 1 && fields[1] != "" then Some(fields[1]) else None
  }

  /** The message for an error thrown by the verifier, chosen by its name. */
  function ErrorMessage(name: string): (message: string)
    ensures name == "TokenExpiredError" ==> message == ExpiredMessage
    ensures name == "JsonWebTokenError" ==> message == InvalidMessage
    ensures name != "TokenExpiredError" && name != "JsonWebTokenError" ==> message == UnverifiedMessage
  {
    if name == "TokenExpiredError" then ExpiredMessage
    else if name == "JsonWebTokenError" then InvalidMessage
    else UnverifiedMessage
  }

  /** `authMiddleware`'s decision for a request with the given header. */
  function Authenticate(header: Option<string>, verify: string -> Verification): (v: Verdict)
    ensures v.Reject? ==> v.status == Unauthorized
    ensures v.Accept? ==> v.user.id != "" && v.user.email != ""
  {
    match ExtractToken(header)
    case None => Reject(Unauthorized, NoTokenMessage)
    case Some(token) =>
      match verify(token)
      case Thrown(name) => Reject(Unauthorized, ErrorMessage(name))
      case Verified(payload) =>
        if payload.None? || !Truthy(payload.value.id) || !Truthy(payload.value.email) then
          Reject(Unauthorized, BadFormatMessage)
        else
          Accept(User(payload.value.id.value, payload.value.email.value))
  }

  /** A header made of any first word, one space, a non-empty token without
      spaces, and optionally more space-separated text yields that token. */
  lemma TokenOfHeader(scheme: string, token: string, rest: string)
    requires ' ' !in scheme && ' ' !in token && token != ""
    requires rest == "" || rest[0] == ' '
    ensures ExtractToken(Some(scheme + " " + token + rest)) == Some(token)
  {
    Text.SplitAtFirst(scheme, ' ', token + rest);
    assert scheme + " " + token + rest == scheme + [' '] + (token + rest);
    if rest == "" {
      Text.SplitNoSeparator(token, ' ');
      assert token + rest == token;
    } else {
      Text.SplitAtFirst(token, ' ', rest[1..]);
      assert token + rest == token + [' '] + rest[1..];
    }
  }

  /** Conversely, a token is only ever found as the text between the first
      space of the header and the next space or the end. */
  lemma HeaderOfToken(h: string, token: string)
    requires ExtractToken(Some(h)) == Some(token)
    ensures exists scheme, rest ::
      ' ' !in scheme && (rest == "" || rest[0] == ' ') && h == scheme + " " + token + rest
  {
    var fields := Text.Split(h, ' ');
    Text.SplitHead(h, ' ');
    var scheme := fields[0];
    var tail := Text.Join(fields[1..], ' ');
    var rest := if |fields| == 2 then "" else [' '] + Text.Join(fields[2..], ' ');
    if |fields| > 2 {
      assert fields[1..][1..] == fields[2..];
    }
    assert tail == token + rest;
    assert ' ' !in fields[0];
    assert rest == "" || rest[0] == ' ';
    assert h == scheme + " " + token + rest;
  }

  /** A header without a space carries no token. */
  lemma NoSpaceNoToken(h: string)
    requires ' ' !in h
    ensures ExtractToken(Some(h)) == None
  {
    Text.SplitNoSeparator(h, ' ');
  }

  /** Without a token the request is rejected with the missing-token message
      before the verifier is consulted: the verdict is the same whatever the
      verifier would say. */
  lemma NoTokenNoVerification(header: Option<string>, verify1: string -> Verification, verify2: string -> Verification)
    requires ExtractToken(header) == None
    ensures Authenticate(header, verify1) == Authenticate(header, verify2) == Reject(Unauthorized, NoTokenMessage)
  {
  }

  /** A request passes exactly when its token verifies to a payload with a
      non-empty id and email, and the recorded user carries those two. */
  lemma AcceptExactly(header: Option<string>, verify: string -> Verification)
    ensures Authenticate(header, verify).Accept? <==>
      ExtractToken(header).Some? && ValidPayload(verify(ExtractToken(header).value))
    ensures Authenticate(header, verify).Accept? ==>
      var c := verify(ExtractToken(header).value).payload.value;
      Authenticate(header, verify).user == User(c.id.value, c.email.value)
  {
  }

  /** Each rejection carries the message of its cause: no token, an error
      thrown by the verifier (by its name), or a payload lacking a truthy
      id or email. */
  lemma RejectionMessages(header: Option<string>, verify: string -> Verification)
    ensures ExtractToken(header).None? ==>
      Authenticate(header, verify) == Reject(Unauthorized, NoTokenMessage)
    ensures ExtractToken(header).Some? && verify(ExtractToken(header).value).Thrown? ==>
      Authenticate(header, verify) == Reject(Unauthorized, ErrorMessage(verify(ExtractToken(header).value).name))
    ensures ExtractToken(header).Some? && verify(ExtractToken(header).value).Verified? && !ValidPayload(verify(ExtractToken(header).value)) ==>
      Authenticate(header, verify) == Reject(Unauthorized, BadFormatMessage)
  {
  }

  predicate ValidPayload(v: Verification)
  {
    v.Verified? && v.payload.Some? && Truthy(v.payload.value.id) && Truthy(v.payload.value.email)
  }

  /** What the middleware does to the request and the response, in order. */
  datatype Effect = SetUser(user: User) | CallNext | Respond(status: int, message: string)

  /** The effects of a verdict: on acceptance `req.user` is set and then
      `next` called; on rejection only the response is sent. */
  function Effects(v: Verdict): seq<Effect>
  {
    match v
    case Accept(user) => [SetUser(user), CallNext]
    case Reject(status, message) => [Respond(status, message)]
  }

  function NextCalls(effects: seq<Effect>): nat
  {
    if effects == [] then 0 else (if effects[0] == CallNext then 1 else 0) + NextCalls(effects[1..])
  }

  /** `next` is called exactly once on acceptance and never on rejection,
      and when it is called the user has been set just before. */
  lemma NextOnlyAfterUser(v: Verdict)
    ensures NextCalls(Effects(v)) == (if v.Accept? then 1 else 0)
    ensures forall k :: 0 <= k < |Effects(v)| && Effects(v)[k] == CallNext ==>
      k > 0 && Effects(v)[k - 1] == SetUser(v.user)
    ensures v.Reject? ==> forall e :: e in Effects(v) ==> !e.SetUser?
  {
    var e := Effects(v);
    match v
    case Accept(user) =>
      assert e[1..][1..] == [];
      assert NextCalls(e[1..]) == 1;
    case Reject(status, message) =>
      assert e[1..] == [];
  }

  /** One request passing through the gate. `effects` is what has been done
      to the request and the response so far. */
  class Exchange {
    const header: Option<string>
    var effects: seq<Effect>

    constructor (header: Option<string>)
      ensures this.header == header && effects == []
    {
      this.header := header;
      effects := [];
    }

    /** `authMiddleware` run on this exchange. */
    method Run(verify: string -> Verification)
      modifies this
      ensures effects == old(effects) + Effects(Authenticate(header, verify))
    {
      var token := ExtractToken(header);
      if token.None? {
        effects := effects + [Respond(Unauthorized, NoTokenMessage)];
        return;
      }
      var outcome := verify(token.value);
      if outcome.Thrown? {
        effects := effects + [Respond(Unauthorized, ErrorMessage(outcome.name))];
        return;
      }
      var payload := outcome.payload;
      if payload.None? || !Truthy(payload.value.id) || !Truthy(payload.value.email) {
        effects := effects + [Respond(Unauthorized, BadFormatMessage)];
        return;
      }
      effects := effects + [SetUser(User(payload.value.id.value, payload.value.email.value))];
      effects := effects + [CallNext];
    }
  }
}
