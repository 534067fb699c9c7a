/** The admin guard of src/lib/admin-auth.ts: an ordered decision over the
    `Authorization` header, the configured admin address and the identity
    provider's answer for the bearer token. */
module AdminAuth {

  import opened Wrappers
  import opened Text

  /** A refusal: the HTTP status and the message sent back. */
  datatype Denial = Denial(status: int, message: string)

  /** The identity provider's answer for a token: an error, or a session
      whose user may or may not carry an email address. */
  datatype UserLookup = LookupFailed | Session(email: Option<string>)

  const BEARER: string := "Bearer "
  const MISSING_TOKEN: string := "Missing access token."
  const NOT_CONFIGURED: string := "ADMIN_EMAIL is not configured."
  const INVALID_SESSION: string := "Invalid session."
  const NOT_AUTHORIZED: string := "Not authorized."

  /** The header text after an exact `Bearer ` prefix, when there is one. */
  function BearerToken(header: Option<string>): (token: Option<string>)
    ensures token.Some? <==> header.Some? && BEARER <= header.value
    ensures token.Some? ==> header.value == BEARER + token.value
  {
    if header.Some? && BEARER <= header.value then Some(header.value[|BEARER|..]) else None
  }

  /** A header, or an environment value, that JavaScript treats as truthy. */
  predicate Present(s: Option<string>) {
    s.Some? && s.value != ""
  }

  /** The email of a successful lookup, when it is a non-empty string. */
  function SessionEmail(lookup: UserLookup): Option<string> {
    if lookup.Session? && Present(lookup.email) then lookup.email else None
  }

  /** `requireAdmin(request)`: 401 without a token, 500 without a configured
      admin address, 401 for a failed lookup or a user without an email, 403
      for another user, and otherwise the user's email as the provider gave it. */
  function RequireAdmin(header: Option<string>, adminEmail: Option<string>, getUser: string -> UserLookup)
    : (r: Result<string, Denial>)
    ensures !Present(BearerToken(header)) ==> r == Failure(Denial(401, MISSING_TOKEN))
    ensures Present(BearerToken(header)) && !Present(adminEmail) ==> r == Failure(Denial(500, NOT_CONFIGURED))
    ensures r.Success? <==>
      && Present(BearerToken(header)) && Present(adminEmail)
      && SessionEmail(getUser(BearerToken(header).value)).Some?
      && Lower(SessionEmail(getUser(BearerToken(header).value)).value) == Lower(adminEmail.value)
    ensures r.Success? ==> Session(Some(r.value)) == getUser(BearerToken(header).value)
    ensures r.Failure? ==> r.error.status in {401, 403, 500}
  {
    var token := BearerToken(header);
    if !Present(token) then Failure(Denial(401, MISSING_TOKEN))
    else if !Present(adminEmail) then Failure(Denial(500, NOT_CONFIGURED))
    else
      var lookup := getUser(token.value);
      if SessionEmail(lookup).None? then Failure(Denial(401, INVALID_SESSION))
      else if Lower(SessionEmail(lookup).value) != Lower(adminEmail.value) then Failure(Denial(403, NOT_AUTHORIZED))
      else Success(SessionEmail(lookup).value)
  }

  /** Without a token, or without a configured admin address, the identity
      provider is never consulted: any provider gives the same answer. */
  lemma ProviderNotConsulted(header: Option<string>, adminEmail: Option<string>,
                             g1: string -> UserLookup, g2: string -> UserLookup)
    requires !Present(BearerToken(header)) || !Present(adminEmail)
    ensures RequireAdmin(header, adminEmail, g1) == RequireAdmin(header, adminEmail, g2)
    ensures RequireAdmin(header, adminEmail, g1).Failure?
  {
  }

  /** A failed lookup, or a session without an email, is an invalid session
      whenever a token and an admin address are present. */
  lemma InvalidSession(header: Option<string>, adminEmail: Option<string>, getUser: string -> UserLookup)
    requires Present(BearerToken(header)) && Present(adminEmail)
    requires getUser(BearerToken(header).value) == LookupFailed
          || getUser(BearerToken(header).value) == Session(None)
          || getUser(BearerToken(header).value) == Session(Some(""))
    ensures RequireAdmin(header, adminEmail, getUser) == Failure(Denial(401, INVALID_SESSION))
  {
  }

  /** Addresses are compared without regard to case: a user whose address
      differs from the configured one only in case is admitted, with the
      address in the provider's own casing. */
  lemma CaseInsensitiveMatch(token: string, adminEmail: string, email: string, getUser: string -> UserLookup)
    requires token != "" && adminEmail != "" && email != ""
    requires getUser(token) == Session(Some(email))
    requires Lower(email) == Lower(adminEmail)
    ensures RequireAdmin(Some(BEARER + token), Some(adminEmail), getUser) == Success(email)
  {
    assert BEARER <= BEARER + token;
    assert (BEARER + token)[|BEARER|..] == token;
  }

  /** Another user with a valid session is refused with 403. */
  lemma OtherUserForbidden(token: string, adminEmail: string, email: string, getUser: string -> UserLookup)
    requires token != "" && adminEmail != "" && email != ""
    requires getUser(token) == Session(Some(email))
    requires Lower(email) != Lower(adminEmail)
    ensures RequireAdmin(Some(BEARER + token), Some(adminEmail), getUser) == Failure(Denial(403, NOT_AUTHORIZED))
  {
    assert BEARER <= BEARER + token;
    assert (BEARER + token)[|BEARER|..] == token;
  }

  /** Another scheme, or the bare prefix, counts as a missing token. */
  lemma BareOrOtherSchemeIsMissing(header: string)
    requires header == BEARER || !(BEARER <= header)
    ensures forall adminEmail: Option<string>, g: string -> UserLookup ::
      RequireAdmin(Some(header), adminEmail, g) == Failure(Denial(401, MISSING_TOKEN))
  {
  }
}
