/** The public-IP resolver, getPublicIP. The HTTP GET itself is outside the
    model: what it returns reaches the reconciler as an Option<string>, the
    response body taken verbatim (None when the request or the read failed).
    What is modelled is the choice of the echo service. */
module Resolver {
  import opened Config
  import opened Directory

  const DefaultIPv4URL: string := "https://api.ipify.org"
  const DefaultIPv6URL: string := "https://api64.ipify.org"

  /** A configured service URL, or the built-in one when it is unset. */
  function Service(configured: string, builtIn: string): string
  {
    if configured == "" then builtIn else configured
  }

  /** The URL asked for the public address: the IPv6 service exactly when the
      IP version is "ipv6", each overridable by a non-empty setting. */
  function Endpoint(s: Settings): (url: string)
    ensures url != ""
    ensures url == Service(s.ipv6URL, DefaultIPv6URL) || url == Service(s.ipv4URL, DefaultIPv4URL)
    ensures url in {s.ipv4URL, s.ipv6URL, DefaultIPv4URL, DefaultIPv6URL}
  {
    if s.ipVersion == "ipv6" then Service(s.ipv6URL, DefaultIPv6URL)
    else Service(s.ipv4URL, DefaultIPv4URL)
  }

  /** The IPv6 service (or its configured override) is asked exactly when
      the record written is AAAA, and the IPv4 service exactly when it is A.
      The body it answers with is not checked to be such an address. */
  lemma EndpointMatchesRecordType(s: Settings)
    ensures RecordType(s.ipVersion) == "AAAA" <==>
      s.ipVersion == "ipv6" && Endpoint(s) == Service(s.ipv6URL, DefaultIPv6URL)
    ensures RecordType(s.ipVersion) == "A" <==>
      s.ipVersion != "ipv6" && Endpoint(s) == Service(s.ipv4URL, DefaultIPv4URL)
  {
  }
}
