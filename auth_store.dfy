/**
 * The browser's session state (frontend/store/auth.store.ts): the token,
 * the signed-in user and the organization id, kept in step with the API
 * client's Authorization header. `atob` and `parse` are the browser's
 * base64 decoder and JSON parser that token decoding uses.
 */
module AuthStore {
  import opened Wrappers
  import opened Types
  import opened Text
  import opened JwtDecode
  import opened Axios

  /** What `persist` writes to storage (`partialize`). */
  datatype Persisted = Persisted(token: Option<string>, user: Option<User>, orgId: Option<string>)

  /** `payload?.orgId ?? user.orgId ?? null` */
  function OrgIdFor(payload: Option<DecodedClaims>, user: User): (r: Option<string>)
    ensures payload.Some? && payload.value.orgId.Some? ==> r == payload.value.orgId
    ensures (payload.None? || payload.value.orgId.None?) ==> r == user.orgId
  {
    (if payload.Some? then payload.value.orgId else None).OrElse(user.orgId)
  }

  class Session {
    var token: Option<string>
    var user: Option<User>
    var orgId: Option<string>
    const client: Client
    const atob: string -> Option<string>
    const parse: string -> Option<DecodedClaims>

    /** A fresh store: signed out. */
    constructor (client: Client, atob: string -> Option<string>, parse: string -> Option<DecodedClaims>)
      ensures token == None && user == None && orgId == None
      ensures this.client == client && this.atob == atob && this.parse == parse
    {
      token, user, orgId := None, None, None;
      this.client, this.atob, this.parse := client, atob, parse;
    }

    /**
     * `setAuth(token, user)`: installs the header, then stores the token and
     * user with the organization the token claims, falling back to the
     * user's.
     */
    method SetAuth(newToken: string, newUser: User)
      modifies this, client
      ensures token == Some(newToken) && user == Some(newUser)
      ensures orgId == OrgIdFor(DecodeJwtPayload(newToken, atob, parse), newUser)
      ensures client.common == HeadersWithToken(old(client.common), Some(newToken))
    {
      client.SetAuthToken(Some(newToken));
      var payload := DecodeJwtPayload(newToken, atob, parse);
      token, user, orgId := Some(newToken), Some(newUser), OrgIdFor(payload, newUser);
    }

    /** `logout()`: removes the header and clears all three fields. */
    method Logout()
      modifies this, client
      ensures token == None && user == None && orgId == None
      ensures client.common == old(client.common) - {Authorization}
    {
      client.SetAuthToken(None);
      token, user, orgId := None, None, None;
    }

    /** `hydrate()`: re-installs the header for a stored token; the store itself is untouched. */
    method Hydrate()
      modifies client
      ensures Truthy(token) ==> client.common == HeadersWithToken(old(client.common), token)
      ensures !Truthy(token) ==> client.common == old(client.common)
    {
      if Truthy(token) {
        client.SetAuthToken(token);
      }
    }

    /** `getPayload()`: the claims of the stored token, never any without one. */
    function GetPayload(): (r: Option<DecodedClaims>)
      reads this
      ensures !Truthy(token) ==> r.None?
      ensures Truthy(token) ==> r == DecodeJwtPayload(token.value, atob, parse)
    {
      if Truthy(token) then DecodeJwtPayload(token.value, atob, parse) else None
    }

    /** `partialize`: exactly the three fields are written to storage. */
    function Partialize(): (r: Persisted)
      reads this
      ensures r.token == token && r.user == user && r.orgId == orgId
    {
      Persisted(token, user, orgId)
    }
  }

  /** Signing out after signing in leaves the headers as signing out alone would. */
  lemma LogoutUndoesSetAuth(common: map<string, string>, token: string)
    ensures HeadersWithToken(HeadersWithToken(common, Some(token)), None) == HeadersWithToken(common, None)
  {
  }

  /** An empty token is stored but installs no header: the next request goes out unauthenticated. */
  lemma EmptyTokenSendsNoHeader(common: map<string, string>)
    ensures Authorization !in HeadersWithToken(common, Some(""))
  {
  }
}
