/** The header helpers of the authentication library: the relying-party id and
    the origin a request claims, derived from its `host` and `origin` headers.
    (The verify routes do not call them; they read environment variables, see
    module WebAuthn.) */
module Headers {
  import opened Values
  import opened Text

  const FALLBACK_RP_ID := "localhost"
  const FALLBACK_ORIGIN := "http://localhost:3000"

  /** `getRPID`: the host with any port removed, or `localhost` without a host header. */
  function GetRPID(host: Option<string>): (rpId: string)
    ensures !Truthy(host) ==> rpId == FALLBACK_RP_ID
    ensures ':' !in rpId
    ensures Truthy(host) ==> rpId <= host.value
    ensures Truthy(host) && |rpId| < |host.value| ==> host.value[|rpId|] == ':'
    ensures Truthy(host) && ':' !in host.value ==> rpId == host.value
  {
    if !Truthy(host) then FALLBACK_RP_ID
    else
      FirstPiece(host.value, ':');
      Split(host.value, ':')[0]
  }

  /** `getOrigin`: the `origin` header if present, else a URL built from the
      host header (plain http only for a host naming localhost), else the
      development default. */
  function GetOrigin(origin: Option<string>, host: Option<string>): (o: string)
    ensures o != ""
    ensures Truthy(origin) ==> o == origin.value
    ensures !Truthy(origin) && Truthy(host) ==>
      (o == "http://" + host.value <==> Includes(host.value, "localhost"))
    ensures !Truthy(origin) && Truthy(host) && !Includes(host.value, "localhost") ==>
      o == "https://" + host.value
    ensures !Truthy(origin) && !Truthy(host) ==> o == FALLBACK_ORIGIN
  {
    if Truthy(origin) then origin.value
    else if Truthy(host) then
      var protocol := if Includes(host.value, "localhost") then "http" else "https";
      assert "https://" + host.value != "http://" + host.value by {
        assert ("https://" + host.value)[4] != ("http://" + host.value)[4];
      }
      protocol + "://" + host.value
    else FALLBACK_ORIGIN
  }

  /** Without an origin header the origin is built from the whole host, port
      included, and the relying-party id taken from the same host is that
      host's name part: a prefix of what follows the scheme. */
  lemma OriginFromHostAgreesWithRpId(host: string)
    requires host != ""
    ensures var o := GetOrigin(None, Some(host));
      exists scheme :: scheme in ["http://", "https://"] && o == scheme + host
    ensures GetRPID(Some(host)) <= host
  {
    var o := GetOrigin(None, Some(host));
    if Includes(host, "localhost") {
      assert "http://" in ["http://", "https://"];
    } else {
      assert "https://" in ["http://", "https://"];
    }
  }
}
