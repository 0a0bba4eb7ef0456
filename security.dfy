/**
 * The admin guard on every write endpoint (api/app/security.py): a bearer
 * token compared with the ADMIN_TOKEN configured in the environment.
 */
module Security {
  import opened Wrappers
  import opened Text

  /** What the bearer-scheme parser hands over: the scheme word and the credential after it. */
  datatype Credentials = Credentials(scheme: string, credentials: string)

  datatype AuthError =
    | NotConfigured   // 503 "Admin auth not configured"
    | Unauthorized    // 401 "Missing or invalid Authorization header"
    | Forbidden       // 403 "Forbidden"

  function Status(e: AuthError): int {
    match e
    case NotConfigured => 503
    case Unauthorized => 401
    case Forbidden => 403
  }

  function Detail(e: AuthError): string {
    match e
    case NotConfigured => "Admin auth not configured"
    case Unauthorized => "Missing or invalid Authorization header"
    case Forbidden => "Forbidden"
  }

  /** The configured token: ADMIN_TOKEN stripped, or empty when it is not set. */
  function AdminToken(env: map<string, string>): string {
    Strip(if "ADMIN_TOKEN" in env then env["ADMIN_TOKEN"] else "")
  }

  /** The header is usable: present, with a credential, under the bearer scheme in any letter case. */
  predicate WellFormed(creds: Option<Credentials>) {
    creds.Some? && creds.value.credentials != "" && Lower(creds.value.scheme) == "bearer"
  }

  /** `require_admin`: configuration first, then the header's shape, then the token itself. */
  function RequireAdmin(adminToken: string, creds: Option<Credentials>): (r: Result<bool, AuthError>)
    ensures r.Ok? <==> adminToken != "" && creds.Some? && Lower(creds.value.scheme) == "bearer"
                       && creds.value.credentials == adminToken
    ensures r.Ok? ==> r.value
    ensures r == Err(NotConfigured) <==> adminToken == ""
    ensures r == Err(Unauthorized) <==> adminToken != "" && !WellFormed(creds)
    ensures r == Err(Forbidden) <==> adminToken != "" && WellFormed(creds) && creds.value.credentials != adminToken
  {
    if adminToken == "" then Err(NotConfigured)
    else if !WellFormed(creds) then Err(Unauthorized)
    else if creds.value.credentials != adminToken then Err(Forbidden)
    else Ok(true)
  }

  /** An unset or blank ADMIN_TOKEN blocks every write, whatever header is sent. */
  lemma BlankTokenBlocksWrites(env: map<string, string>, creds: Option<Credentials>)
    requires "ADMIN_TOKEN" in env ==> forall k :: 0 <= k < |env["ADMIN_TOKEN"]| ==> IsSpace(env["ADMIN_TOKEN"][k])
    ensures RequireAdmin(AdminToken(env), creds) == Err(NotConfigured)
  {
    StripBlank(if "ADMIN_TOKEN" in env then env["ADMIN_TOKEN"] else "");
  }

  /** The scheme word is compared without regard to case. */
  lemma SchemeCaseIgnored(token: string)
    requires token != ""
    ensures RequireAdmin(token, Some(Credentials("BEARER", token))) == Ok(true)
    ensures RequireAdmin(token, Some(Credentials("Bearer", token))) == Ok(true)
  {
    BearerSpellings();
  }

  /** Three spellings of the scheme word that lower-case to "bearer". */
  lemma BearerSpellings()
    ensures Lower("BEARER") == "bearer" && Lower("Bearer") == "bearer" && Lower("bearer") == "bearer"
  {
  }

  /** Surrounding whitespace in the configured token does not count: the stripped token is what must be sent. */
  lemma ConfiguredTokenIsStripped(token: string)
    requires token != "" && !IsSpace(token[0]) && !IsSpace(token[|token| - 1])
    ensures RequireAdmin(AdminToken(map["ADMIN_TOKEN" := " " + token + " "]), Some(Credentials("bearer", token))) == Ok(true)
  {
    StripOfPadded(token);
    BearerSpellings();
    assert AdminToken(map["ADMIN_TOKEN" := " " + token + " "]) == Strip(" " + token + " ");
  }

  lemma StripOfPadded(token: string)
    requires token != "" && !IsSpace(token[0]) && !IsSpace(token[|token| - 1])
    ensures Strip(" " + token + " ") == token
  {
    var padded := " " + token + " ";
    var r := Strip(padded);
    var i :| TrimmedAt(padded, r, i);
    assert IsSpace(padded[0]) && IsSpace(padded[|padded| - 1]);
    assert padded[1..|padded| - 1] == token;
    assert padded[1] == token[0] && padded[|padded| - 2] == token[|token| - 1];
  }
}
