/** Start-up configuration. The program reads its settings from environment
    variables once; here the raw variables (with the numeric ones already
    parsed by strconv.Atoi, None standing for a parse error) are the input and
    the defaulted settings are the output. */
module Config {
  import opened Wrappers

  const DefaultInterval: int := 600    // seconds
  const DefaultTTL: int := 120         // seconds
  const DefaultIPVersion: string := "ipv4"

  /** The environment as the program sees it. */
  datatype Environment = Environment(
    apiToken: string,
    dnsName: string,
    interval: Option<int>,   // strconv.Atoi(CLOUDFLARE_DNS_UPDATE_INTERVAL)
    autoCreate: string,      // CLOUDFLARE_AUTO_CREATE_DNS
    ipVersion: string,       // CLOUDFLARE_IP_VERSION
    ttl: Option<int>,        // strconv.Atoi(CLOUDFLARE_DNS_TTL)
    ipv4URL: string,         // CLOUDFLARE_IPV4_URL
    ipv6URL: string)         // CLOUDFLARE_IPV6_URL

  /** The settings the updater runs with. */
  datatype Settings = Settings(
    apiToken: string,
    dnsName: string,
    interval: int,
    autoCreate: bool,
    ipVersion: string,
    ttl: int,
    ipv4URL: string,
    ipv6URL: string)
  {
    /** What defaulting guarantees. */
    predicate Valid()
    {
      interval > 0 && ttl > 0 && ipVersion != ""
    }
  }

  /** A parsed number if it parsed and is positive, else the default. */
  function PositiveOr(parsed: Option<int>, default: int): (r: int)
    requires default > 0
    ensures r > 0
    ensures r == default || parsed == Some(r)
    ensures parsed.Some? && parsed.value > 0 ==> r == parsed.value
  {
    if parsed.None? || parsed.value <= 0 then default else parsed.value
  }

  /** The defaulting done at the top of main. */
  function Load(env: Environment): (s: Settings)
    ensures s.Valid()
    ensures s.interval == (if env.interval.Some? && env.interval.value > 0 then env.interval.value else DefaultInterval)
    ensures s.ttl == (if env.ttl.Some? && env.ttl.value > 0 then env.ttl.value else DefaultTTL)
    ensures env.ipVersion == "" ==> s.ipVersion == DefaultIPVersion
    ensures env.ipVersion != "" ==> s.ipVersion == env.ipVersion
    ensures s.autoCreate <==> env.autoCreate == "true"
    ensures s.apiToken == env.apiToken && s.dnsName == env.dnsName
    ensures s.ipv4URL == env.ipv4URL && s.ipv6URL == env.ipv6URL
  {
    Settings(
      env.apiToken,
      env.dnsName,
      PositiveOr(env.interval, DefaultInterval),
      env.autoCreate == "true",
      if env.ipVersion == "" then DefaultIPVersion else env.ipVersion,
      PositiveOr(env.ttl, DefaultTTL),
      env.ipv4URL,
      env.ipv6URL)
  }

  /** An environment that spells out the given settings. */
  function Spell(s: Settings): Environment
  {
    Environment(s.apiToken, s.dnsName, Some(s.interval),
                if s.autoCreate then "true" else "false",
                s.ipVersion, Some(s.ttl), s.ipv4URL, s.ipv6URL)
  }

  /** Defaulting leaves valid settings alone: loading the environment that
      spells out valid settings gives them back, so every valid configuration
      is reachable and defaulting is idempotent. */
  lemma LoadSpell(s: Settings)
    requires s.Valid()
    ensures Load(Spell(s)) == s
  {
  }
}
