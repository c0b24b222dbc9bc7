/** Registration, login and logout. Passwords are hashed and compared by
    bcrypt and tokens signed and verified as JWTs; both are passed in as
    functions. Logout puts the caller's token on a blocklist, an in-memory
    expiring cache, which the auth interceptor consults on every call. */
module Auth {
  import opened Common

  datatype User = User(id: Id, fullName: string, email: string, passwordHash: string, role: Role)

  /** The user table, keyed by e-mail address. */
  type Users = map<string, User>

  datatype RegisterRequest = RegisterRequest(fullName: string, email: string, password: string, passwordConfirmation: string)

  datatype LoginRequest = LoginRequest(email: string, password: string)

  /** Repository steps that may fail with a plain error. */
  datatype Step = LookupUser | InsertUser

  /** `bcrypt.GenerateFromPassword` at cost 10. */
  datatype HashResult = Hashed(hash: string) | HashFailed

  /** `bcrypt.CompareHashAndPassword`: a match, a mismatch, or another error
      (a malformed stored hash, say). */
  datatype CompareResult = Match | Mismatch | CompareFailed

  datatype RegisterOutcome = RegisterOutcome(reply: Reply<Base>, users: Users)

  datatype LoginResponse = LoginResponse(base: Base, accessToken: string)

  /** Tokens are valid for 24 hours, in seconds. */
  const TokenLifetime: int := 86400

  /** Creates a customer account. The confirmation check comes before any
      repository access. */
  function Register(users: Users, req: RegisterRequest, hash: string -> HashResult, freshId: Id, faults: set<Step>): (out: RegisterOutcome)
    ensures out.reply.Err? || !out.reply.response.Success? ==> out.users == users
    ensures req.password != req.passwordConfirmation ==>
      out.reply == Ok(BadRequest("Password dan konfirmasi password tidak sama"))
    ensures req.password == req.passwordConfirmation && LookupUser !in faults && req.email in users ==>
      out.reply == Ok(BadRequest("Email sudah terdaftar"))
    ensures out.reply.Ok? && out.reply.response.Success? <==>
      && req.password == req.passwordConfirmation && req.email !in users
      && LookupUser !in faults && InsertUser !in faults && hash(req.password).Hashed?
    ensures out.reply.Ok? && out.reply.response.Success? ==>
      out.users == users[req.email := User(freshId, req.fullName, req.email, hash(req.password).hash, Customer)]
  {
    if req.password != req.passwordConfirmation then
      RegisterOutcome(Ok(BadRequest("Password dan konfirmasi password tidak sama")), users)
    else if LookupUser in faults then RegisterOutcome(Err(Fault("get user")), users)
    else if req.email in users then RegisterOutcome(Ok(BadRequest("Email sudah terdaftar")), users)
    else match hash(req.password)
      case HashFailed => RegisterOutcome(Err(Fault("hash password")), users)
      case Hashed(h) =>
        if InsertUser in faults then RegisterOutcome(Err(Fault("insert user")), users)
        else
          var u := User(freshId, req.fullName, req.email, h, Customer);
          RegisterOutcome(Ok(Success("User berhasil didaftarkan")), users[req.email := u])
  }

  /** The claims a token issued at `now` carries. */
  function TokenClaims(u: User, now: Time): (c: Claims)
    ensures c.subject == u.id && c.role == u.role && c.email == u.email && c.fullName == u.fullName
    ensures c.issuedAt == now && c.expiresAt == now + TokenLifetime
  {
    Claims(u.id, u.email, u.fullName, u.role, now, now + TokenLifetime)
  }

  /** The branch outcomes of login; `sign` is HS256 signing with the
      server's secret. */
  function Login(users: Users, req: LoginRequest, compare: (string, string) -> CompareResult,
                 sign: Claims -> Option<string>, now: Time, faults: set<Step>): (r: Reply<LoginResponse>)
    ensures LookupUser !in faults && req.email !in users ==>
      r == Ok(LoginResponse(BadRequest("Email tidak terdaftar"), ""))
    ensures LookupUser !in faults && req.email in users && compare(users[req.email].passwordHash, req.password) == Mismatch ==>
      r == Err(Status(Unauthenticated, "Password salah"))
    ensures r.Err? && IsUnauthenticated(r.failure) ==>
      req.email in users && compare(users[req.email].passwordHash, req.password) == Mismatch
    ensures r.Ok? && r.response.base.Success? <==>
      && LookupUser !in faults && req.email in users
      && compare(users[req.email].passwordHash, req.password) == Match
      && sign(TokenClaims(users[req.email], now)).Some?
    ensures r.Ok? && r.response.base.Success? ==>
      r.response.accessToken == sign(TokenClaims(users[req.email], now)).value
  {
    if LookupUser in faults then Err(Fault("get user"))
    else if req.email !in users then Ok(LoginResponse(BadRequest("Email tidak terdaftar"), ""))
    else
      var u := users[req.email];
      match compare(u.passwordHash, req.password)
      case Mismatch => Err(Status(Unauthenticated, "Password salah"))
      case CompareFailed => Err(Fault("compare password"))
      case Match =>
        match sign(TokenClaims(u, now))
        case None => Err(Fault("sign token"))
        case Some(token) => Ok(LoginResponse(Success("Login berhasil"), token))
  }

  /** A registered account can log in with the password it registered with,
      as a customer, when bcrypt accepts its own hash. */
  lemma RegisterThenLogin(users: Users, req: RegisterRequest, hash: string -> HashResult, freshId: Id,
                          compare: (string, string) -> CompareResult, sign: Claims -> Option<string>, now: Time)
    requires Register(users, req, hash, freshId, {}).reply == Ok(Success("User berhasil didaftarkan"))
    requires compare(hash(req.password).hash, req.password) == Match
    requires forall c: Claims :: sign(c).Some?
    ensures var users' := Register(users, req, hash, freshId, {}).users;
      var r := Login(users', LoginRequest(req.email, req.password), compare, sign, now, {});
      && r.Ok? && r.response.base.Success?
      && r.response.accessToken == sign(Claims(freshId, req.email, req.fullName, Customer, now, now + TokenLifetime)).value
  {
  }

  // ---------------------------------------------------------------------
  // The bearer header

  /** `strings.Split(s, " ")`: the pieces between single spaces, so two
      adjacent spaces give an empty piece and "" gives one empty piece. */
  function Split(s: string): (parts: seq<string>)
    ensures |parts| >= 1
    ensures forall i :: 0 <= i < |parts| ==> ' ' !in parts[i]
  {
    if |s| == 0 then [""]
    else
      var rest := Split(s[1..]);
      if s[0] == ' ' then [""] + rest
      else [[s[0]] + rest[0]] + rest[1..]
  }

  /** `strings.Join(parts, " ")`. */
  function Join(parts: seq<string>): string
    requires |parts| >= 1
  {
    if |parts| == 1 then parts[0] else parts[0] + " " + Join(parts[1..])
  }

  /** Splitting loses nothing: joining the pieces gives the string back. */
  lemma {:induction false} JoinSplit(s: string)
    ensures Join(Split(s)) == s
  {
    if |s| > 0 {
      var rest := Split(s[1..]);
      JoinSplit(s[1..]);
      if s[0] == ' ' {
        assert ([""] + rest)[1..] == rest;
      } else {
        var parts := Split(s);
        if |rest| > 1 {
          assert parts[1..] == rest[1..];
          assert Join(parts) == [s[0]] + (rest[0] + " " + Join(rest[1..]));
        }
        assert s == [s[0]] + s[1..];
      }
    }
  }

  /** A space-free piece followed by a space splits off as the first piece. */
  lemma {:induction false} SplitAfterPiece(a: string, b: string)
    requires ' ' !in a
    ensures Split(a + " " + b) == [a] + Split(b)
  {
    if |a| > 0 {
      var s := a + " " + b;
      assert s[1..] == a[1..] + " " + b;
      assert ' ' !in a[1..] by {
        forall i | 0 <= i < |a[1..]|
          ensures a[1..][i] != ' '
        {
          assert a[1..][i] == a[i + 1];
        }
      }
      SplitAfterPiece(a[1..], b);
      assert [a[0]] + a[1..] == a;
    } else {
      assert a + " " + b == " " + b;
    }
  }

  lemma {:induction false} SplitSpaceFree(t: string)
    requires ' ' !in t
    ensures Split(t) == [t]
  {
    if |t| > 0 {
      assert ' ' !in t[1..] by {
        forall i | 0 <= i < |t[1..]|
          ensures t[1..][i] != ' '
        {
          assert t[1..][i] == t[i + 1];
        }
      }
      SplitSpaceFree(t[1..]);
      assert [t[0]] + t[1..] == t;
    }
  }

  /** The header check of logout: exactly two space-separated pieces, the
      first exactly "Bearer". */
  function ParseBearer(header: string): (r: Reply<string>)
    ensures r.Err? ==> IsUnauthenticated(r.failure)
    ensures |Split(header)| != 2 ==> r == Err(Status(Unauthenticated, "Format token salah"))
    ensures |Split(header)| == 2 && Split(header)[0] != "Bearer" ==>
      r == Err(Status(Unauthenticated, "Token harus diawali dengan Bearer"))
    ensures r.Ok? ==> Split(header) == ["Bearer", r.response]
  {
    var parts := Split(header);
    if |parts| != 2 then Err(Status(Unauthenticated, "Format token salah"))
    else if parts[0] != "Bearer" then Err(Status(Unauthenticated, "Token harus diawali dengan Bearer"))
    else Ok(parts[1])
  }

  /** The header is accepted exactly when it is "Bearer", one space and a
      space-free token, and then the token is what follows the space. */
  lemma ParseBearerIff(header: string, t: string)
    ensures ParseBearer(header) == Ok(t) <==> header == "Bearer " + t && ' ' !in t
  {
    if header == "Bearer " + t && ' ' !in t {
      assert header == "Bearer" + " " + t;
      SplitAfterPiece("Bearer", t);
      SplitSpaceFree(t);
    }
    if ParseBearer(header) == Ok(t) {
      var parts := Split(header);
      JoinSplit(header);
      assert Join(parts) == parts[0] + " " + Join(parts[1..]);
      assert parts[1..] == [t];
    }
  }

  /** A double space leaves an empty middle piece, so the header is refused. */
  lemma DoubleSpaceRejected()
    ensures ParseBearer("Bearer  x") == Err(Status(Unauthenticated, "Format token salah"))
  {
    assert "Bearer  x" == "Bearer" + " " + (" " + "x");
    SplitAfterPiece("Bearer", " x");
    assert " x" == "" + " " + "x";
    SplitAfterPiece("", "x");
    SplitSpaceFree("x");
  }

  // ---------------------------------------------------------------------
  // The blocklist

  /** When a cache entry stops being returned. */
  datatype Expiry = At(deadline: Time) | Never

  type Blocklist = map<string, Expiry>

  /** The cache's default lifetime, `gocache.New(time.Hour*24, …)`. */
  const DefaultTtl: int := 86400

  /** `Set(key, value, ttl)`: a positive ttl expires ttl seconds from now,
      0 means the default lifetime, a negative ttl never expires. */
  function CacheSet(bl: Blocklist, key: string, ttl: int, now: Time): (bl': Blocklist)
    ensures bl'.Keys == bl.Keys + {key}
    ensures forall k :: k in bl && k != key ==> bl'[k] == bl[k]
    ensures ttl > 0 ==> bl'[key] == At(now + ttl)
    ensures ttl == 0 ==> bl'[key] == At(now + DefaultTtl)
    ensures ttl < 0 ==> bl'[key] == Never
  {
    bl[key := if ttl > 0 then At(now + ttl) else if ttl == 0 then At(now + DefaultTtl) else Never]
  }

  /** `Get(key)` finds the entry: present and not past its deadline. */
  predicate Live(bl: Blocklist, key: string, now: Time) {
    key in bl && (bl[key].Never? || now <= bl[key].deadline)
  }

  /** The outcome of `jwt.ParseWithClaims` with the server's secret: a parse
      or signature error, a token reported not valid, claims of another
      type, or the server's claims. */
  datatype TokenCheck = ParseFailed | NotValid | ForeignClaims | Verified(claims: Claims)

  /** The incoming gRPC metadata; keys are lower case. */
  type Metadata = map<string, seq<string>>

  datatype LogoutOutcome = LogoutOutcome(reply: Reply<Base>, blocklist: Blocklist)

  function Unauth(message: string): Reply<Base> {
    Err(Status(Unauthenticated, message))
  }

  /** The bearer token of the first "authorization" value, or why there is
      none. */
  function BearerToken(md: Option<Metadata>): (r: Reply<string>)
    ensures r.Err? ==> IsUnauthenticated(r.failure)
    ensures r.Ok? <==>
      && md.Some? && "authorization" in md.value && |md.value["authorization"]| > 0
      && ParseBearer(md.value["authorization"][0]).Ok?
    ensures r.Ok? ==> r == ParseBearer(md.value["authorization"][0])
  {
    if md.None? then Err(Status(Unauthenticated, "Tidak ada metadata pada context"))
    else if "authorization" !in md.value then Err(Status(Unauthenticated, "Tidak ada token pada metadata"))
    else if |md.value["authorization"]| == 0 then Err(Status(Unauthenticated, "Token tidak ditemukan"))
    else ParseBearer(md.value["authorization"][0])
  }

  /** Blocklists the caller's token until the token itself expires. */
  function Logout(md: Option<Metadata>, bl: Blocklist, verify: string -> TokenCheck, now: Time): (out: LogoutOutcome)
    ensures out.reply.Err? ==> out.blocklist == bl && IsUnauthenticated(out.reply.failure)
    ensures out.reply.Ok? <==> BearerToken(md).Ok? && verify(BearerToken(md).response).Verified?
    ensures out.reply.Ok? ==>
      var t := BearerToken(md).response;
      && out.reply.response == Success("Logout berhasil")
      && out.blocklist == CacheSet(bl, t, verify(t).claims.expiresAt - now, now)
  {
    match BearerToken(md)
    case Err(f) => LogoutOutcome(Err(f), bl)
    case Ok(t) =>
      match verify(t)
      case ParseFailed => LogoutOutcome(Unauth("Token tidak valid"), bl)
      case NotValid => LogoutOutcome(Unauth("Token sudah tidak berlaku"), bl)
      case ForeignClaims => LogoutOutcome(Unauth("Token tidak valid"), bl)
      case Verified(c) =>
        LogoutOutcome(Ok(Success("Logout berhasil")), CacheSet(bl, t, c.expiresAt - now, now))
  }

  /** A token that has not yet expired stays blocked from logout until its
      own expiry instant, and only that token is added. */
  lemma LogoutBlocksUntilExpiry(md: Option<Metadata>, bl: Blocklist, verify: string -> TokenCheck, now: Time, later: Time)
    requires Logout(md, bl, verify, now).reply.Ok?
    requires var t := BearerToken(md).response; now <= later <= verify(t).claims.expiresAt
    ensures var t := BearerToken(md).response;
      var bl' := Logout(md, bl, verify, now).blocklist;
      Live(bl', t, later) && bl'.Keys == bl.Keys + {t}
  {
  }

  /** A token whose expiry falls in the logout's own second is kept for the
      cache's default 24 hours instead of not at all. */
  lemma LogoutAtExpiryInstant(md: Option<Metadata>, bl: Blocklist, verify: string -> TokenCheck, now: Time)
    requires Logout(md, bl, verify, now).reply.Ok?
    requires verify(BearerToken(md).response).claims.expiresAt == now
    ensures var t := BearerToken(md).response;
      var bl' := Logout(md, bl, verify, now).blocklist;
      Live(bl', t, now + DefaultTtl) && !Live(bl', t, now + DefaultTtl + 1)
  {
  }
}
