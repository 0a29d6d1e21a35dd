/** The `authenticateToken` middleware in front of every /products route.
    Token verification (signature and expiry) is a foreign library call and
    is given to the gate as an oracle `verify`. */
module Auth {
  import opened Http
  import opened Text

  /** The identity claims a session token carries: `{id, username}`. */
  datatype Claims = Claims(id: int, username: string)

  /** The gate's decision: answer the request, or let it through with the
      caller's verified identity attached. */
  datatype Gate = Denied(status: nat, message: string) | Admitted(caller: Claims)

  const TokenRequired := "Access token required"
  const TokenInvalid := "Invalid or expired token"

  /** `authHeader && authHeader.split(' ')[1]`, kept only when truthy: the
      second space-separated word of the Authorization header. */
  function BearerToken(header: Option<string>): (token: Option<string>)
    ensures token.Some? ==> token.value != [] && ' ' !in token.value
  {
    if header.None? then None
    else
      var words := Split(header.value, ' ');
      if |words| >= 2 && words[1] != [] then Some(words[1]) else None
  }

  /** For a header whose first space follows a scheme word, the token is
      what stands between that space and the next one (or the end): present
      exactly when it is not empty. */
  lemma {:induction false} TokenIsSecondWord(scheme: string, token: string, rest: string)
    requires ' ' !in scheme && ' ' !in token
    requires rest == [] || rest[0] == ' '
    ensures BearerToken(Some(scheme + " " + token + rest)) == if token == [] then None else Some(token)
  {
    assert scheme + " " + token + rest == scheme + [' '] + (token + rest);
    SplitAtFirstSeparator(scheme, token + rest, ' ');
    if rest == [] {
      assert token + rest == token;
      SplitWithoutSeparator(token, ' ');
    } else {
      assert token + rest == token + [' '] + rest[1..];
      SplitAtFirstSeparator(token, rest[1..], ' ');
    }
  }

  /** A header without any space carries no token. */
  lemma {:induction false} NoSpaceNoToken(header: string)
    requires ' ' !in header
    ensures BearerToken(Some(header)) == None
  {
    SplitWithoutSeparator(header, ' ');
  }

  /** `authenticateToken`: no token answers 401, a token the verifier
      refuses answers 403, and otherwise the request proceeds with exactly
      the verified claims as the caller. */
  function Authenticate(header: Option<string>, verify: string -> Option<Claims>): (g: Gate)
    ensures BearerToken(header).None? ==> g == Denied(401, TokenRequired)
    ensures BearerToken(header).Some? && verify(BearerToken(header).value).None? ==> g == Denied(403, TokenInvalid)
    ensures g.Admitted? <==> BearerToken(header).Some? && verify(BearerToken(header).value).Some?
    ensures g.Admitted? ==> verify(BearerToken(header).value) == Some(g.caller)
  {
    match BearerToken(header)
    case None => Denied(401, TokenRequired)
    case Some(token) =>
      match verify(token)
      case None => Denied(403, TokenInvalid)
      case Some(claims) => Admitted(claims)
  }

  /** No Authorization header at all answers 401. */
  lemma MissingHeaderIsUnauthorized(verify: string -> Option<Claims>)
    ensures Authenticate(None, verify) == Denied(401, TokenRequired)
  {
  }

  /** The bare scheme "Bearer", and "Bearer " with nothing after the space,
      answer 401 whatever the verifier would say. */
  lemma BareSchemeIsUnauthorized(verify: string -> Option<Claims>)
    ensures Authenticate(Some("Bearer"), verify) == Denied(401, TokenRequired)
    ensures Authenticate(Some("Bearer "), verify) == Denied(401, TokenRequired)
  {
    NoSpaceNoToken("Bearer");
    TokenIsSecondWord("Bearer", "", "");
    assert "Bearer" + " " + "" + "" == "Bearer ";
  }

  /** A well-formed "Bearer <token>" header hands exactly that token to the
      verifier: refused gives 403, accepted admits the verified claims. */
  lemma {:induction false} BearerHeaderVerifiesToken(token: string, verify: string -> Option<Claims>)
    requires token != [] && ' ' !in token
    ensures Authenticate(Some("Bearer " + token), verify) ==
              if verify(token).None? then Denied(403, TokenInvalid) else Admitted(verify(token).value)
  {
    TokenIsSecondWord("Bearer", token, "");
    assert "Bearer" + " " + token + "" == "Bearer " + token;
  }
}
