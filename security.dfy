/**
 * The trusted-frontend check of backend/core/utils/security.py: a request is trusted in
 * debug mode, or when its Referer (else its Origin) header starts with the configured
 * TRUSTED_REFERER.
 */
module Security {
  import opened Wrappers
  import opened Text
  import opened Dict

  /** The settings the check reads: `DEBUG` and the optional `TRUSTED_REFERER`. */
  datatype Settings = Settings(debug: bool, trustedReferer: Option<string>)

  /** A response body `{"detail": ...}` with its status code. */
  datatype Response = Response(status: int, detail: string)

  /** `headers.get(name, "")`. */
  function Header(headers: seq<(string, string)>, name: string): (r: string)
    ensures name !in Keys(headers) ==> r == ""
    ensures name in Keys(headers) ==> Get(headers, name) == Some(r)
  {
    Get(headers, name).GetOr("")
  }

  /** `headers.get("Referer", "") or headers.get("Origin", "")`. */
  function Referer(headers: seq<(string, string)>): (r: string)
    ensures Header(headers, "Referer") != "" ==> r == Header(headers, "Referer")
    ensures Header(headers, "Referer") == "" ==> r == Header(headers, "Origin")
  {
    var referer := Header(headers, "Referer");
    if referer != "" then referer else Header(headers, "Origin")
  }

  /** `is_request_from_trusted_frontend`. */
  function IsTrusted(settings: Settings, headers: seq<(string, string)>): (r: bool)
    ensures settings.debug ==> r
    ensures !settings.debug && settings.trustedReferer.GetOr("") != "" && Referer(headers) == "" ==> !r
  {
    settings.debug || StartsWith(Referer(headers), settings.trustedReferer.GetOr(""))
  }

  /**
   * Debug mode trusts every request, and so does a missing or empty TRUSTED_REFERER; a
   * referer shorter than the trusted prefix is never trusted outside debug mode.
   */
  lemma TrustedCases(settings: Settings, headers: seq<(string, string)>)
    ensures settings.debug ==> IsTrusted(settings, headers)
    ensures settings.trustedReferer.GetOr("") == "" ==> IsTrusted(settings, headers)
    ensures !settings.debug && |Referer(headers)| < |settings.trustedReferer.GetOr("")| ==> !IsTrusted(settings, headers)
  {
  }

  /**
   * Outside debug mode, with TRUSTED_REFERER set to `t`: a non-empty Referer header decides
   * alone, and the Origin header decides when Referer is missing or empty.
   */
  lemma TrustedByHeader(headers: seq<(string, string)>, t: string, referer: string, origin: string)
    requires Get(headers, "Origin") == Some(origin)
    ensures Get(headers, "Referer") == Some(referer) && referer != "" ==>
      (IsTrusted(Settings(false, Some(t)), headers) <==> StartsWith(referer, t))
    ensures Get(headers, "Referer").None? || Get(headers, "Referer") == Some("") ==>
      (IsTrusted(Settings(false, Some(t)), headers) <==> StartsWith(origin, t))
  {
  }

  /** `reject_if_untrusted`: a 403 "Forbidden" response for an untrusted request, else nothing. */
  function RejectIfUntrusted(settings: Settings, headers: seq<(string, string)>): (r: Option<Response>)
    ensures r.Some? <==> !IsTrusted(settings, headers)
    ensures r.Some? ==> r.value == Response(403, "Forbidden")
  {
    if !IsTrusted(settings, headers) then Some(Response(403, "Forbidden")) else None
  }
}
