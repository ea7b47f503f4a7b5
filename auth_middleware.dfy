/**
 * The `protect` middleware: it takes a bearer token from the Authorization header,
 * has it verified, looks the user up, and only then records the user on the request
 * and passes control on. Token verification is a parameter `verify`, which yields the
 * id the token was signed for, or `None` when the token does not verify.
 */
module AuthMiddleware {
  import opened Wrappers
  import opened JsString
  import opened ApiErrors
  import opened Models

  const NO_TOKEN: string := "Not authorized, no token"
  const TOKEN_INVALID: string := "Not authorized, token invalid"

  /**
   * The token of an Authorization header: only a header starting with "Bearer"
   * (case as written) has one, and it is the second field of the header split on
   * single spaces; a missing or empty second field is no token.
   */
  function ExtractToken(header: Option<string>): (r: Option<string>)
    ensures r.Some? ==> header.Some? && StartsWith(header.value, "Bearer") && r.value != ""
    ensures r.Some? ==> ' ' !in r.value
  {
    if header.Some? && StartsWith(header.value, "Bearer") then
      var fields := Split(header.value, ' ');
      SplitPiecesFree(header.value, ' ');
      if |fields| >= 2 && fields[1] != "" then Some(fields[1]) else None
    else None
  }

  /** "Bearer <t>" followed by nothing or by further space-separated fields yields exactly `t`. */
  lemma BearerToken(t: string, rest: string)
    requires t != "" && ' ' !in t
    requires rest == "" || rest[0] == ' '
    ensures ExtractToken(Some("Bearer " + t + rest)) == Some(t)
  {
    var h := "Bearer " + t + rest;
    assert StartsWith(h, "Bearer");
    assert h[6] == ' ' && ' ' !in h[..6];
    SplitFirst(h, ' ', 6);
    var tail := h[7..];
    assert tail == t + rest;
    if rest == "" {
      assert tail == t;
      SplitNoSeparator(t, ' ');
    } else {
      assert tail[|t|] == ' ' && tail[..|t|] == t;
      SplitFirst(tail, ' ', |t|);
    }
  }

  /** The header cases that carry no token. */
  lemma NoTokenCases(h: string, t: string)
    ensures ExtractToken(None) == None
    ensures !StartsWith(h, "Bearer") ==> ExtractToken(Some(h)) == None
    ensures ExtractToken(Some("Bearer")) == None
    ensures ExtractToken(Some("Bearer  " + t)) == None
    ensures ExtractToken(Some("bearer " + t)) == None
  {
    SplitNoSeparator("Bearer", ' ');
    var h2 := "Bearer  " + t;
    assert h2[6] == ' ' && ' ' !in h2[..6];
    SplitFirst(h2, ' ', 6);
    var tail := h2[7..];
    assert tail[0] == ' ' && ' ' !in tail[..0];
    SplitFirst(tail, ' ', 0);
    assert !StartsWith("bearer " + t, "Bearer") by {
      assert ("bearer " + t)[0] != "Bearer"[0];
    }
  }

  /** What `protect` ends with: control passed on for a user id, or a 401. */
  datatype Outcome = Proceed(id: UserId) | Reject(error: HandlerError)

  /**
   * `protect` for a header, the token verifier and the ids of the stored users. Every
   * failure after a token was found, the failed user lookup included, is reported as
   * the same "token invalid" error.
   */
  function ProtectSpec(header: Option<string>, verify: string -> Option<UserId>, users: set<UserId>): Outcome {
    match ExtractToken(header)
    case None => Reject(ApiError(401, NO_TOKEN))
    case Some(t) =>
      match verify(t)
      case Some(id) => if id in users then Proceed(id) else Reject(ApiError(401, TOKEN_INVALID))
      case None => Reject(ApiError(401, TOKEN_INVALID))
  }

  /** Control passes on exactly for a token that verifies to the id of a stored user. */
  lemma ProtectProceedsIff(header: Option<string>, verify: string -> Option<UserId>, users: set<UserId>, id: UserId)
    ensures ProtectSpec(header, verify, users) == Proceed(id) <==>
      ExtractToken(header).Some? && verify(ExtractToken(header).value) == Some(id) && id in users
  {
  }

  /** Every rejection is a 401, with "no token" exactly when the header carries no token. */
  lemma ProtectRejections(header: Option<string>, verify: string -> Option<UserId>, users: set<UserId>)
    ensures ProtectSpec(header, verify, users).Reject? ==> ProtectSpec(header, verify, users).error.ApiError?
    ensures ProtectSpec(header, verify, users).Reject? ==> ProtectSpec(header, verify, users).error.status == 401
    ensures ProtectSpec(header, verify, users) == Reject(ApiError(401, NO_TOKEN)) <==> ExtractToken(header).None?
    ensures ExtractToken(header).Some? && ProtectSpec(header, verify, users).Reject? ==>
      ProtectSpec(header, verify, users).error.message == TOKEN_INVALID
  {
  }

  /** The request as `protect` sees it: its header, the user it records, and whether `next` was called. */
  class AuthRequest {
    const authorization: Option<string>
    var user: Option<UserId>
    var nextCalled: bool

    constructor (authorization: Option<string>)
      ensures this.authorization == authorization && user == None && !nextCalled
    {
      this.authorization := authorization;
      user := None;
      nextCalled := false;
    }

    /**
     * Run `protect` on this request: on success the decoded id is recorded and `next`
     * is called; on failure neither happens and the error is returned.
     */
    method Protect(verify: string -> Option<UserId>, users: set<UserId>) returns (err: Option<HandlerError>)
      modifies this
      ensures ProtectSpec(authorization, verify, users).Proceed? ==>
        err == None && user == Some(ProtectSpec(authorization, verify, users).id) && nextCalled
      ensures ProtectSpec(authorization, verify, users).Reject? ==>
        err == Some(ProtectSpec(authorization, verify, users).error) && user == old(user) && nextCalled == old(nextCalled)
    {
      var token := None;
      if authorization.Some? && StartsWith(authorization.value, "Bearer") {
        var fields := Split(authorization.value, ' ');
        if |fields| >= 2 {
          token := Some(fields[1]);
        }
      }
      if !Truthy(token) {
        return Some(ApiError(401, NO_TOKEN));
      }
      var decoded := verify(token.value);
      if decoded.None? || decoded.value !in users {
        return Some(ApiError(401, TOKEN_INVALID));
      }
      user := Some(decoded.value);
      nextCalled := true;
      err := None;
    }
  }
}
