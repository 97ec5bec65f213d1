/** The DNS directory client: the four requests sent to the provider, the
    payload of a create or update, and the choice of the first result of a
    lookup. Replies are taken as already decoded from JSON; a reply that fails
    to decode reads as an empty list, as in the program. */
module Directory {
  import opened Wrappers
  import opened Errors
  import opened Domain

  datatype Zone = Zone(id: string, name: string)

  datatype DnsRecord = DnsRecord(id: string, name: string, content: string)

  /** The JSON body of a create or update request. */
  datatype Payload = Payload(recordType: string, name: string, content: string, ttl: int)

  /** A request sent to the provider. */
  datatype Request =
    | ListZones(domain: string)                                  // GET  zones?name=
    | ListRecords(zoneID: string, name: string)                  // GET  zones/{zone}/dns_records?name=
    | CreateRecord(zoneID: string, payload: Payload)             // POST zones/{zone}/dns_records
    | UpdateRecord(zoneID: string, recordID: string, payload: Payload)  // PUT zones/{zone}/dns_records/{id}
  {
    predicate IsWrite()
    {
      CreateRecord? || UpdateRecord?
    }
  }

  /** "AAAA" for the IP version "ipv6", "A" for any other. */
  function RecordType(ipVersion: string): (t: string)
    ensures t == "A" || t == "AAAA"
    ensures t == "AAAA" <==> ipVersion == "ipv6"
  {
    if ipVersion == "ipv6" then "AAAA" else "A"
  }

  /** The body of createDNSRecord and updateDNSRecord. */
  function RecordPayload(dnsName: string, ip: string, ipVersion: string, ttl: int): (p: Payload)
    ensures p.recordType == "AAAA" <==> ipVersion == "ipv6"
    ensures p.recordType == "A" <==> ipVersion != "ipv6"
    ensures p.name == dnsName && p.content == ip && p.ttl == ttl
  {
    Payload(RecordType(ipVersion), dnsName, ip, ttl)
  }

  /** The zone lookup of getZoneID, asked for the domain of the DNS name. */
  function ZoneQuery(dnsName: string): (q: Request)
    ensures q.ListZones? && q.domain == ExtractDomain(dnsName)
  {
    ListZones(ExtractDomain(dnsName))
  }

  /** getZoneID given the transport's result for the zone lookup: the first
      zone listed, an error naming the domain when none is, and the transport
      error when the request failed. */
  function FindZone(dnsName: string, reply: Result<seq<Zone>, Error>): (r: Result<Zone, Error>)
    ensures r.Success? <==> reply.Success? && |reply.value| > 0
    ensures r.Success? ==> r.value == reply.value[0]
    ensures reply.Failure? ==> r.error == reply.error
    ensures reply.Success? && reply.value == [] ==> r.error == ZoneNotFound(ExtractDomain(dnsName))
  {
    match reply
    case Failure(e) => Failure(e)
    case Success(zones) =>
      if |zones| > 0 then Success(zones[0]) else Failure(ZoneNotFound(ExtractDomain(dnsName)))
  }

  /** getDNSRecordID given the transport's result for the record lookup: the
      first record listed, and when none is, a record with an empty id and
      content that carries the DNS name; only a failed request is an error. */
  function FindRecord(dnsName: string, reply: Result<seq<DnsRecord>, Error>): (r: Result<DnsRecord, Error>)
    ensures r.Success? <==> reply.Success?
    ensures reply.Failure? ==> r.error == reply.error
    ensures reply.Success? && |reply.value| > 0 ==> r.value == reply.value[0]
    ensures reply.Success? && reply.value == [] ==> r.value == DnsRecord("", dnsName, "")
  {
    match reply
    case Failure(e) => Failure(e)
    case Success(records) =>
      if |records| > 0 then Success(records[0]) else Success(DnsRecord("", dnsName, ""))
  }
}
