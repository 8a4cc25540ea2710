/** `app/jwt_callbacks.py`: the token-revocation check run on every protected request. */
module JwtCallbacks {
  import opened Tables

  /** The decoded JWT header and payload; only the payload's `jti` claim is named. */
  datatype JwtHeader = JwtHeader(fields: map<string, string>)
  datatype JwtPayload = JwtPayload(jti: string, claims: map<string, string>)

  /** `check_if_token_revoked`: some blocklist row holds the payload's jti. */
  function CheckIfTokenRevoked(blocklist: seq<string>, header: JwtHeader, payload: JwtPayload): (r: bool)
    ensures r <==> payload.jti in blocklist
  {
    var found := Where(blocklist, (j: string) => j == payload.jti);
    assert payload.jti in blocklist ==> payload.jti in found;
    assert found != [] ==> found[0] in found;
    found != []
  }

  /** Nothing is revoked before the first logout. */
  lemma EmptyBlocklistRevokesNothing(header: JwtHeader, payload: JwtPayload)
    ensures !CheckIfTokenRevoked([], header, payload)
  {
  }

  /** Once a jti is blocklisted (by logout), every token carrying it is revoked, whatever its
      header and other claims; and the other tokens keep their status. */
  lemma LogoutRevokes(blocklist: seq<string>, jti: string, header: JwtHeader, payload: JwtPayload)
    ensures payload.jti == jti ==> CheckIfTokenRevoked(blocklist + [jti], header, payload)
    ensures payload.jti != jti ==>
      CheckIfTokenRevoked(blocklist + [jti], header, payload) == CheckIfTokenRevoked(blocklist, header, payload)
  {
  }
}
