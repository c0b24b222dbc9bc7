/** Types shared by every service of the shop backend: identifiers, money,
    clock values, the caller's JWT claims and the (response, error) pair that
    each gRPC method returns. */
module Common {

  /** Identifiers are uuid strings generated by the services. */
  type Id = string

  /** Instants, in whole seconds. */
  type Time = int

  /** Prices and totals, in minor currency units (the source uses float64). */
  type Money = int

  datatype Option<+T> = None | Some(value: T)

  datatype Role = Admin | Customer

  /** The claims a signed access token carries. */
  datatype Claims = Claims(
    subject: Id,
    email: string,
    fullName: string,
    role: Role,
    issuedAt: Time,
    expiresAt: Time)

  /** The `Base` part of every response message: a business outcome that
      travels back with a nil gRPC error. */
  datatype Base =
    | Success(message: string)
    | BadRequest(message: string)
    | NotFound(message: string)

  /** The gRPC status codes the services and interceptors produce. */
  datatype Code = Unauthenticated | Internal

  /** A non-nil Go error: either a gRPC status or a plain error coming from
      the database, the file system or a remote service. */
  datatype Failure =
    | Status(code: Code, message: string)
    | Fault(cause: string)

  /** What a unary gRPC method returns: a response or an error. */
  datatype Reply<+T> = Ok(response: T) | Err(failure: Failure)

  /** The error returned when the request context carries no claims. */
  const NoClaims: Failure := Fault("claims missing from context")

  /** The error every role gate and the token blocklist return. */
  const Denied: Failure := Status(Unauthenticated, "Unauthenticated")

  predicate IsUnauthenticated(f: Failure) {
    f.Status? && f.code == Unauthenticated
  }
}
