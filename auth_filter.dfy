/** `FirebaseAuthenticationFilter.doFilterInternal`: the per-request check
    that lets a few paths through, demands a `Bearer` token everywhere
    else, has Firebase verify it and, on success, installs the caller's uid
    as the authenticated principal.

    Firebase's `verifyIdToken` is a function parameter (the oracle): it
    either yields the token's uid, fails with a `FirebaseAuthException`, or
    fails with any other exception, which the filter does not catch. The
    servlet request, the response and the security context are the fields
    of an `Exchange`. */
module AuthFilter {
  import opened Common
  import JavaLang

  datatype Verification = Verified(uid: string) | AuthFailure | OtherFailure

  /** The `UserDetails` the filter builds: username, password and
      authorities. */
  datatype Principal = Principal(username: string, password: string, authorities: seq<string>)

  /** How a request leaves the filter: passed on untouched, passed on
      with a principal, answered 401 with a message, or with an exception
      propagating to the servlet container. */
  datatype Outcome = PassThrough | Authenticated(principal: Principal) | Unauthorized(message: string) | Thrown

  const SC_OK: int := 200
  const SC_UNAUTHORIZED: int := 401
  const BEARER: string := "Bearer "
  const MISSING_HEADER: string := "Unauthorized: Missing or invalid Authorization header"
  const INVALID_TOKEN: string := "Unauthorized: Invalid Firebase ID token"

  /** The URIs the filter does not check: the H2 console (any URI with that
      prefix) and two public endpoints, matched exactly. */
  predicate Bypassed(uri: string)
  {
    JavaLang.StartsWith(uri, "/h2-console") || uri == "/api/hello" || uri == "/api/config/game"
  }

  /** The ID token of a well-formed header: what follows `"Bearer "`. */
  function BearerToken(header: Option<string>): (t: Option<string>)
    ensures t.Some? <==> header.Some? && JavaLang.StartsWith(header.value, BEARER)
    ensures t.Some? ==> header.value == BEARER + t.value
  {
    if header.Some? && JavaLang.StartsWith(header.value, BEARER) then Some(header.value[7..]) else None
  }

  /** The decision the filter makes for a request to `uri` carrying the
      given `Authorization` header. */
  function Filter(uri: string, header: Option<string>, verify: string -> Verification): Outcome
  {
    if Bypassed(uri) then PassThrough
    else if BearerToken(header).None? then Unauthorized(MISSING_HEADER)
    else
      match verify(BearerToken(header).value)
      case Verified(uid) => Authenticated(Principal(uid, "", []))
      case AuthFailure => Unauthorized(INVALID_TOKEN)
      case OtherFailure => Thrown
  }

  /** What the filter leaves behind: the response status and body, the
      authentication in the security context, and whether the rest of the
      chain ran. */
  datatype ExchangeState = ExchangeState(status: int, body: string, authentication: Option<Principal>, chainCalled: bool)

  /** The effect of an outcome on the exchange. A 401 appends its message
      to the response body. */
  function Apply(e: ExchangeState, o: Outcome): (e': ExchangeState)
    ensures e'.chainCalled <==> e.chainCalled || o.PassThrough? || o.Authenticated?
    ensures o.Unauthorized? ==> e'.status == SC_UNAUTHORIZED && e'.body == e.body + o.message
    ensures !o.Unauthorized? ==> e'.status == e.status && e'.body == e.body
    ensures e'.authentication == if o.Authenticated? then Some(o.principal) else e.authentication
  {
    match o
    case PassThrough => e.(chainCalled := true)
    case Authenticated(p) => e.(authentication := Some(p), chainCalled := true)
    case Unauthorized(m) => e.(status := SC_UNAUTHORIZED, body := e.body + m)
    case Thrown => e
  }

  // ---------------------------------------------------------------- lemmas

  /** A request passes unchecked exactly when its URI is one of the bypassed
      ones. */
  lemma BypassIff(uri: string, header: Option<string>, verify: string -> Verification)
    ensures Filter(uri, header, verify) == PassThrough <==> Bypassed(uri)
  {
  }

  /** Elsewhere a missing header, or one not starting with `"Bearer "`
      (case-sensitive, with its space), is answered 401 without consulting
      Firebase. */
  lemma MissingHeaderRejected(uri: string, header: Option<string>, verify: string -> Verification)
    requires !Bypassed(uri)
    requires header.None? || !JavaLang.StartsWith(header.value, BEARER)
    ensures Filter(uri, header, verify) == Unauthorized(MISSING_HEADER)
  {
  }

  /** The token handed to Firebase is the header with `"Bearer "` removed:
      `"Bearer " + t` yields `t`, for every `t`. */
  lemma BearerRoundTrip(t: string)
    ensures BearerToken(Some(BEARER + t)) == Some(t)
  {
    assert (BEARER + t)[..7] == BEARER;
    assert (BEARER + t)[7..] == t;
  }

  /** A request is authenticated exactly when its URI is checked, its header
      carries a token and Firebase accepts that token; the principal's
      username is the token's uid, its password empty, and it has no
      authorities. */
  lemma AuthenticatedIff(uri: string, header: Option<string>, verify: string -> Verification, p: Principal)
    ensures Filter(uri, header, verify) == Authenticated(p) <==>
      && !Bypassed(uri)
      && BearerToken(header).Some?
      && verify(BearerToken(header).value) == Verified(p.username)
      && p.password == "" && p.authorities == []
  {
  }

  /** A token Firebase rejects is answered 401, and the chain stops; any
      other failure of verification escapes the filter. */
  lemma RejectedToken(uri: string, t: string, verify: string -> Verification)
    requires !Bypassed(uri)
    ensures verify(t) == AuthFailure ==> Filter(uri, Some(BEARER + t), verify) == Unauthorized(INVALID_TOKEN)
    ensures verify(t) == OtherFailure ==> Filter(uri, Some(BEARER + t), verify) == Thrown
  {
    BearerRoundTrip(t);
  }

  /** The chain goes on exactly for a bypassed or an authenticated request,
      and only an authenticated one changes the security context. */
  lemma ChainContinuesIff(e: ExchangeState, uri: string, header: Option<string>, verify: string -> Verification)
    requires !e.chainCalled && e.authentication.None?
    ensures var o := Filter(uri, header, verify);
      var e' := Apply(e, o);
      && (e'.chainCalled <==> Bypassed(uri) || o.Authenticated?)
      && (e'.authentication.Some? <==> o.Authenticated?)
  {
  }

  /** The console bypass is a prefix match, wider than the console's own
      path: `/h2-console-admin` passes unchecked too, while `/api/hello/`
      with a trailing slash does not. */
  lemma BypassExamples(verify: string -> Verification)
    ensures Filter("/h2-console-admin", None, verify) == PassThrough
    ensures Filter("/api/hello/", None, verify) == Unauthorized(MISSING_HEADER)
    ensures Filter("/api/goals", Some("bearer abc"), verify) == Unauthorized(MISSING_HEADER)
  {
    assert "/h2-console-admin"[..11] == "/h2-console";
    assert "bearer abc"[..7] != BEARER by {
      assert "bearer abc"[0] != BEARER[0];
    }
    assert !JavaLang.StartsWith("/api/hello/", "/h2-console") by {
      assert "/api/hello/"[1] != "/h2-console"[1];
    }
    assert !JavaLang.StartsWith("/api/goals", "/h2-console") by {
      assert "/api/goals"[1] != "/h2-console"[1];
    }
  }

  // --------------------------------------------------------------- methods

  class Exchange {
    var status: int
    var body: string
    var authentication: Option<Principal>
    var chainCalled: bool

    /** A fresh request: status 200, empty body, nobody authenticated, the
        chain not yet run. */
    constructor ()
      ensures Snapshot() == ExchangeState(SC_OK, "", None, false)
    {
      status, body, authentication, chainCalled := SC_OK, "", None, false;
    }

    function Snapshot(): ExchangeState
      reads this
    {
      ExchangeState(status, body, authentication, chainCalled)
    }

    /** `doFilterInternal`. `thrown` reports an exception escaping the
        filter. */
    method DoFilterInternal(uri: string, authorizationHeader: Option<string>, verify: string -> Verification)
      returns (thrown: bool)
      modifies this
      ensures thrown <==> Filter(uri, authorizationHeader, verify) == Thrown
      ensures Snapshot() == Apply(old(Snapshot()), Filter(uri, authorizationHeader, verify))
    {
      if JavaLang.StartsWith(uri, "/h2-console") || uri == "/api/hello" || uri == "/api/config/game" {
        chainCalled := true;
        return false;
      }
      if authorizationHeader.Some? && JavaLang.StartsWith(authorizationHeader.value, BEARER) {
        var idToken := authorizationHeader.value[7..];
        var decodedToken := verify(idToken);
        match decodedToken {
          case Verified(uid) =>
            var userDetails := Principal(uid, "", []);
            authentication := Some(userDetails);
          case AuthFailure =>
            status := SC_UNAUTHORIZED;
            body := body + INVALID_TOKEN;
            return false;
          case OtherFailure =>
            return true;
        }
      } else {
        status := SC_UNAUTHORIZED;
        body := body + MISSING_HEADER;
        return false;
      }
      chainCalled := true;
      thrown := false;
    }
  }
}
