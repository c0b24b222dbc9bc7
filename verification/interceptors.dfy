/** The unary interceptor chain of the gRPC server: the error interceptor
    outermost, the auth interceptor inside it, then the handler. The auth
    interceptor lets login and registration through, refuses blocklisted
    tokens and puts the token's claims in the handler's context; the error
    interceptor turns every failure, and every panic, into an Internal
    status. */
module Interceptors {
  import opened Common
  import opened Auth

  /** What a handler did: returned a reply, or panicked. */
  datatype HandlerOutcome<T> = Returned(reply: Reply<T>) | Panicked

  /** The token the context carries, as the token helper reads it from the
      metadata, or the error it reports. */
  datatype TokenRead = Token(token: string) | NoToken(failure: Failure)

  const LoginMethod: string := "/auth.AuthService/Login"
  const RegisterMethod: string := "/auth.AuthService/Register"
  const LogoutMethod: string := "/auth.AuthService/Logout"

  const InternalError: Failure := Status(Internal, "Internal server error")

  predicate Bypassed(fullMethod: string) {
    fullMethod == LoginMethod || fullMethod == RegisterMethod
  }

  /** The auth interceptor. `readToken` and `claimsOf` are the token helpers
      it calls; `handler` receives the claims put in its context (none for
      the bypassed methods). */
  function AuthMiddleware<T>(fullMethod: string, md: Option<Metadata>, bl: Blocklist, now: Time,
                             readToken: Option<Metadata> -> TokenRead, claimsOf: string -> Reply<Claims>,
                             handler: Option<Claims> -> HandlerOutcome<T>): (r: HandlerOutcome<T>)
    ensures Bypassed(fullMethod) ==> r == handler(None)
    ensures !Bypassed(fullMethod) && readToken(md).NoToken? ==> r == Returned(Err(readToken(md).failure))
    ensures !Bypassed(fullMethod) && readToken(md).Token? && Live(bl, readToken(md).token, now) ==>
      r == Returned(Err(Denied))
    ensures !Bypassed(fullMethod) && readToken(md).Token? && !Live(bl, readToken(md).token, now) ==>
      (if claimsOf(readToken(md).token).Err?
       then r == Returned(Err(claimsOf(readToken(md).token).failure))
       else r == handler(Some(claimsOf(readToken(md).token).response)))
  {
    if Bypassed(fullMethod) then handler(None)
    else match readToken(md)
      case NoToken(f) => Returned(Err(f))
      case Token(t) =>
        if Live(bl, t, now) then Returned(Err(Denied))
        else match claimsOf(t)
          case Err(f) => Returned(Err(f))
          case Ok(c) => handler(Some(c))
  }

  /** The error interceptor: responses pass through, failures and panics
      become Internal with no response. */
  function ErrMiddleware<T>(inner: HandlerOutcome<T>): (r: Reply<T>)
    ensures inner.Returned? && inner.reply.Ok? ==> r == inner.reply
    ensures inner.Panicked? || inner.reply.Err? ==> r == Err(InternalError)
  {
    match inner
    case Panicked => Err(InternalError)
    case Returned(Err(_)) => Err(InternalError)
    case Returned(Ok(resp)) => Ok(resp)
  }

  /** The chain as the server wires it. */
  function Serve<T>(fullMethod: string, md: Option<Metadata>, bl: Blocklist, now: Time,
                    readToken: Option<Metadata> -> TokenRead, claimsOf: string -> Reply<Claims>,
                    handler: Option<Claims> -> HandlerOutcome<T>): (r: Reply<T>)
    ensures r.Err? ==> r.failure == InternalError
    ensures r.Ok? ==> exists c :: handler(c) == Returned(r)
  {
    var inner := AuthMiddleware(fullMethod, md, bl, now, readToken, claimsOf, handler);
    var seen: Option<Claims> :=
      if Bypassed(fullMethod) || readToken(md).NoToken? || claimsOf(readToken(md).token).Err? then None
      else Some(claimsOf(readToken(md).token).response);
    assert inner.Returned? && inner.reply.Ok? ==> inner == handler(seen);
    ErrMiddleware(inner)
  }

  /** A call the auth interceptor refuses never reaches the handler: its
      outcome is the same whatever the handler would have done. */
  lemma RefusedCallIgnoresHandler<T>(fullMethod: string, md: Option<Metadata>, bl: Blocklist, now: Time,
                                     readToken: Option<Metadata> -> TokenRead, claimsOf: string -> Reply<Claims>,
                                     h1: Option<Claims> -> HandlerOutcome<T>, h2: Option<Claims> -> HandlerOutcome<T>)
    requires !Bypassed(fullMethod)
    requires readToken(md).NoToken? || Live(bl, readToken(md).token, now) || claimsOf(readToken(md).token).Err?
    ensures AuthMiddleware(fullMethod, md, bl, now, readToken, claimsOf, h1) == AuthMiddleware(fullMethod, md, bl, now, readToken, claimsOf, h2)
    ensures Serve(fullMethod, md, bl, now, readToken, claimsOf, h1) == Err(InternalError)
  {
  }

  /** The client never sees the auth interceptor's Unauthenticated status:
      the outer interceptor reports it as Internal. */
  lemma RefusalSurfacesAsInternal<T>(fullMethod: string, md: Option<Metadata>, bl: Blocklist, now: Time,
                                     readToken: Option<Metadata> -> TokenRead, claimsOf: string -> Reply<Claims>,
                                     handler: Option<Claims> -> HandlerOutcome<T>)
    requires !Bypassed(fullMethod) && readToken(md).Token? && Live(bl, readToken(md).token, now)
    ensures AuthMiddleware(fullMethod, md, bl, now, readToken, claimsOf, handler) == Returned(Err(Denied))
    ensures Serve(fullMethod, md, bl, now, readToken, claimsOf, handler) == Err(InternalError)
    ensures !IsUnauthenticated(Serve(fullMethod, md, bl, now, readToken, claimsOf, handler).failure)
  {
  }

  /** After a successful logout, every later call bearing the same token
      and made before the token's expiry is refused, a second logout
      included, whatever the handler. */
  lemma LoggedOutTokenIsRefused<T>(md: Option<Metadata>, bl: Blocklist, verify: string -> TokenCheck, now: Time,
                                   fullMethod: string, md2: Option<Metadata>, later: Time,
                                   readToken: Option<Metadata> -> TokenRead, claimsOf: string -> Reply<Claims>,
                                   handler: Option<Claims> -> HandlerOutcome<T>)
    requires Logout(md, bl, verify, now).reply.Ok?
    requires !Bypassed(fullMethod)
    requires readToken(md2) == Token(BearerToken(md).response)
    requires now <= later <= verify(BearerToken(md).response).claims.expiresAt
    ensures var bl' := Logout(md, bl, verify, now).blocklist;
      AuthMiddleware(fullMethod, md2, bl', later, readToken, claimsOf, handler) == Returned(Err(Denied))
  {
    LogoutBlocksUntilExpiry(md, bl, verify, now, later);
  }

  /** Logging out twice with the same token: the second call is refused
      before the logout handler runs and the blocklist is left as the first
      call set it. */
  lemma SecondLogoutRefused(md: Option<Metadata>, bl: Blocklist, verify: string -> TokenCheck, now: Time, later: Time,
                            readToken: Option<Metadata> -> TokenRead, claimsOf: string -> Reply<Claims>)
    requires Logout(md, bl, verify, now).reply.Ok?
    requires readToken(md) == Token(BearerToken(md).response)
    requires now <= later <= verify(BearerToken(md).response).claims.expiresAt
    ensures var bl' := Logout(md, bl, verify, now).blocklist;
      var handler := (c: Option<Claims>) => Returned(Logout(md, bl', verify, later).reply);
      Serve(LogoutMethod, md, bl', later, readToken, claimsOf, handler) == Err(InternalError)
  {
    LogoutBlocksUntilExpiry(md, bl, verify, now, later);
  }
}
