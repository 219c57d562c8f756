/** The gateway's JWT check on every incoming call: the Authorization header
    must hold "Bearer " followed by a token that the verifier accepts;
    otherwise the call is closed as UNAUTHENTICATED.

    The verifier (HMAC256 with the test secret, fixed issuer and subject) is
    not part of this model: it is the parameter `verify`, which yields the
    message of the exception it throws, or None when the token passes. */
module Gateway {
  import opened Common

  /** AuthConstants.HEADER_AUTH_KEY and BEARER_PREFIX. */
  const HeaderAuthKey: string := "Authorization"
  const BearerPrefix: string := "Bearer "

  /** What interceptCall did with the call: handed it to the next handler,
      or closed it as UNAUTHENTICATED with the failure's message as cause. */
  datatype Interception = StartedNext | ClosedUnauthenticated(cause: string)

  function MissingTokenMessage(): string
  {
    "Expected authorization token (JWT) under key '" + HeaderAuthKey + "' but found null or empty string instead."
  }

  function MissingPrefixMessage(authValue: string): string
  {
    "Expected authorization token to start with the '" + BearerPrefix + "' prefix but found '" + authValue + "' instead."
  }

  /** The token handed to the verifier: the header without its prefix. */
  function EncodedJwt(authValue: string): (jwt: string)
    requires StartsWith(authValue, BearerPrefix)
    ensures authValue == BearerPrefix + jwt
  {
    authValue[|BearerPrefix|..]
  }

  /** interceptCall, given the Authorization header's value (None when it is
      absent). */
  function InterceptCall(authValue: Option<string>, verify: string -> Option<string>): (r: Interception)
    ensures r.StartedNext? <==>
      authValue.Some? && StartsWith(authValue.value, BearerPrefix) && verify(EncodedJwt(authValue.value)).None?
    ensures authValue.None? || authValue == Some("") ==> r == ClosedUnauthenticated(MissingTokenMessage())
    ensures authValue.Some? && authValue.value != "" && !StartsWith(authValue.value, BearerPrefix) ==>
      r == ClosedUnauthenticated(MissingPrefixMessage(authValue.value))
    ensures authValue.Some? && StartsWith(authValue.value, BearerPrefix) && verify(EncodedJwt(authValue.value)).Some? ==>
      r == ClosedUnauthenticated(verify(EncodedJwt(authValue.value)).value)
  {
    if authValue.None? || authValue.value == "" then ClosedUnauthenticated(MissingTokenMessage())
    else if !StartsWith(authValue.value, BearerPrefix) then ClosedUnauthenticated(MissingPrefixMessage(authValue.value))
    else
      match verify(EncodedJwt(authValue.value))
      case Some(failure) => ClosedUnauthenticated(failure)
      case None => StartedNext
  }
}
