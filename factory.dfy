// `make_client`: the router's stored protocol chooses the adapter and its
// transport security; the stored secret is decrypted into the password.
module Factory {
  import opened Wrappers
  import opened Store

  /** The constructor arguments of the two adapters. The REST adapter keeps
      its scheme fallback on (its default); the binary-API adapter has none. */
  datatype ClientConfig =
    | RestConfig(host: string, port: int, username: string, password: string,
                 tlsVerify: bool, https: bool, allowSchemeFallback: bool)
    | ApiConfig(host: string, port: int, username: string, password: string,
                useTls: bool, sslVerify: bool)

  /** The password handed to the adapter: the decrypted secret, or "" when it
      cannot be decrypted. */
  function Password(secretEnc: string, decrypt: string -> Option<string>): string {
    decrypt(secretEnc).GetOr("")
  }

  /** `make_client`. "rest" and "rest-http" select the REST adapter, with
      https for "rest" only; every other protocol selects the binary-API
      adapter, with TLS unless it is "api-plain", and certificate checks only
      over TLS. Host, port and username pass through. */
  function MakeClient(router: RouterRow, decrypt: string -> Option<string>): (c: ClientConfig)
    ensures c.RestConfig? <==> router.proto == "rest" || router.proto == "rest-http"
    ensures c.RestConfig? ==> c.https == (router.proto == "rest") && c.tlsVerify == router.tlsVerify
    ensures c.RestConfig? ==> c.allowSchemeFallback
    ensures c.ApiConfig? ==> c.useTls == (router.proto != "api-plain")
    ensures c.ApiConfig? ==> c.sslVerify == (c.useTls && router.tlsVerify)
    ensures c.host == router.host && c.port == router.port && c.username == router.username
    ensures decrypt(router.secretEnc).None? ==> c.password == ""
    ensures decrypt(router.secretEnc).Some? ==> c.password == decrypt(router.secretEnc).value
  {
    var password := Password(router.secretEnc, decrypt);
    if router.proto == "rest" || router.proto == "rest-http" then
      var https := if router.proto == "rest-http" then false else true;
      RestConfig(router.host, router.port, router.username, password, router.tlsVerify, https, true)
    else
      var useTls := if router.proto == "api-plain" then false else true;
      ApiConfig(router.host, router.port, router.username, password, useTls,
                if useTls then router.tlsVerify else false)
  }

  /** A password stored through a cipher whose decryption undoes its
      encryption reaches the adapter unchanged. */
  lemma PasswordRoundTrip(router: RouterRow, pw: string, encrypt: string -> string,
                          decrypt: string -> Option<string>)
    requires decrypt(encrypt(pw)) == Some(pw)
    ensures MakeClient(router.(secretEnc := encrypt(pw)), decrypt).password == pw
  {
  }
}
