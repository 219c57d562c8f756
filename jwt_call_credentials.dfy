/** The client's call credentials: one Authorization header with the bearer
    token, built once, and attached to a call only over a channel with
    privacy and integrity. */
module Client {
  import opened Common
  import Gateway

  datatype SecurityLevel = NoSecurity | IntegrityOnly | PrivacyAndIntegrity

  /** What the metadata applier was told: apply these headers, or fail with
      UNAUTHENTICATED. */
  datatype Applied = AppliedHeaders(headers: map<string, string>) | FailedUnauthenticated

  datatype JwtCallCredentials = JwtCallCredentials(headers: map<string, string>)

  /** The constructor: the one header "Authorization" with "Bearer " + jwt. */
  function NewCredentials(jwt: string): (c: JwtCallCredentials)
    ensures c.headers.Keys == {Gateway.HeaderAuthKey}
    ensures c.headers[Gateway.HeaderAuthKey] == Gateway.BearerPrefix + jwt
  {
    JwtCallCredentials(map[Gateway.HeaderAuthKey := Gateway.BearerPrefix + jwt])
  }

  /** applyRequestMetadata: the headers only at PRIVACY_AND_INTEGRITY. */
  function ApplyRequestMetadata(c: JwtCallCredentials, level: SecurityLevel): (r: Applied)
    ensures r.AppliedHeaders? <==> level == PrivacyAndIntegrity
    ensures r.AppliedHeaders? ==> r.headers == c.headers
  {
    if level == PrivacyAndIntegrity then AppliedHeaders(c.headers) else FailedUnauthenticated
  }

  /** The header the client sends passes the gateway's presence and prefix
      checks, and the gateway verifies exactly the client's token: the call
      goes through iff the verifier accepts that token. */
  lemma {:induction false} HeaderRoundTrip(jwt: string, verify: string -> Option<string>)
    ensures var value := NewCredentials(jwt).headers[Gateway.HeaderAuthKey];
      && StartsWith(value, Gateway.BearerPrefix)
      && Gateway.EncodedJwt(value) == jwt
      && (Gateway.InterceptCall(Some(value), verify).StartedNext? <==> verify(jwt).None?)
  {
    var value := Gateway.BearerPrefix + jwt;
    assert value[..|Gateway.BearerPrefix|] == Gateway.BearerPrefix;
    var stripped := Gateway.EncodedJwt(value);
    assert value == Gateway.BearerPrefix + stripped;
    assert stripped == value[|Gateway.BearerPrefix|..];
  }
}
