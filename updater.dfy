/** The running updater: the object behind main's local variables and the
    global lastIP, with a ghost log of the requests it has sent to the DNS
    provider. The endless loop of main is modelled by Step (one iteration)
    and Run (a finite sequence of iterations). */
module Updater {
  import opened Wrappers
  import opened Config
  import opened Directory
  import opened Reconcile

  /** A create or update body for the configured name, type and TTL. */
  predicate Conforms(s: Settings, p: Payload)
  {
    p.name == s.dnsName && p.recordType == RecordType(s.ipVersion) && p.ttl == s.ttl
  }

  /** The update requests that carry the given addresses, in order. */
  function UpdateRequests(s: Settings, zoneID: string, recordID: string, ips: seq<string>): (rs: seq<Request>)
    ensures |rs| == |ips|
  {
    if ips == [] then []
    else
      var n := |ips| - 1;
      UpdateRequests(s, zoneID, recordID, ips[..n]) +
        [UpdateRecord(zoneID, recordID, RecordPayload(s.dnsName, ips[n], s.ipVersion, s.ttl))]
  }

  /** The request log of a run grows by the update of each iteration that
      sends one. */
  lemma LogSnoc(s: Settings, zoneID: string, recordID: string, log: seq<Request>, es: seq<Effect>, e: Effect)
    ensures log + UpdateRequests(s, zoneID, recordID, UpdateContents(es)) +
        (if e.IssuesUpdate() then [UpdateRecord(zoneID, recordID, RecordPayload(s.dnsName, e.ip, s.ipVersion, s.ttl))] else [])
      == log + UpdateRequests(s, zoneID, recordID, UpdateContents(es + [e]))
  {
    assert (es + [e])[..|es|] == es;
    var ips := UpdateContents(es);
    if e.IssuesUpdate() {
      assert (ips + [e.ip])[..|ips|] == ips;
    } else {
      assert UpdateContents(es + [e]) == ips;
    }
  }

  /** Every body sent is for the configured name, record type and TTL;
      updates are sent only while running, and all to the zone and record
      fixed at start-up. */
  ghost predicate LogValid(s: Settings, log: seq<Request>, running: bool, zoneID: string, recordID: string)
  {
    (forall i :: 0 <= i < |log| && log[i].IsWrite() ==> Conforms(s, log[i].payload)) &&
    (forall i :: 0 <= i < |log| && log[i].UpdateRecord? ==>
      running && log[i].zoneID == zoneID && log[i].recordID == recordID)
  }

  /** Start-up sends only well-formed requests, whatever it ends in. */
  lemma StartupLogValid(s: Settings, replies: StartupReplies, running: bool, zoneID: string, recordID: string)
    ensures LogValid(s, Startup(s, replies).requests, running, zoneID, recordID)
  {
  }

  class Reconciler {
    const settings: Settings
    var running: bool
    var zoneID: string
    var recordID: string
    var lastIP: string
    ghost var requests: seq<Request>

    /** Settings are defaulted, and the log is well formed (LogValid). */
    ghost predicate Valid()
      reads this
    {
      settings.Valid() && LogValid(settings, requests, running, zoneID, recordID)
    }

    /** The configuration is read and defaulted; lastIP starts as Go's zero
        value. */
    constructor (env: Environment)
      ensures Valid()
      ensures settings == Load(env)
      ensures !running && lastIP == "" && requests == []
    {
      settings := Load(env);
      running := false;
      zoneID, recordID, lastIP := "", "", "";
      requests := [];
    }

    /** The start-up phase of main. A returned reason means main returned. */
    method Start(replies: StartupReplies) returns (stop: Option<StopReason>)
      requires Valid() && !running && requests == []
      modifies this
      ensures Valid()
      ensures var out := Startup(settings, replies);
        requests == out.requests &&
        (out.Stopped? ==> stop == Some(out.reason) && !running && lastIP == old(lastIP)) &&
        (out.Running? ==>
           stop == None && running && zoneID == out.zoneID && recordID == out.recordID && lastIP == out.lastIP)
    {
      ghost var out := Startup(settings, replies);
      StartupLogValid(settings, replies, true, "", "");
      requests := [ZoneQuery(settings.dnsName)];
      var zone := FindZone(settings.dnsName, replies.zones);
      if zone.Failure? {
        assert out == Stopped(ZoneLookupFailed(zone.error), requests);
        return Some(ZoneLookupFailed(zone.error));
      }
      zoneID := zone.value.id;
      requests := requests + [ListRecords(zoneID, settings.dnsName)];
      var record := FindRecord(settings.dnsName, replies.records);
      if record.Failure? {
        assert out == Stopped(RecordLookupFailed(record.error), requests);
        return Some(RecordLookupFailed(record.error));
      }
      recordID := record.value.id;
      if recordID == "" {
        if !settings.autoCreate {
          assert out == Stopped(RecordMissing, requests);
          return Some(RecordMissing);
        }
        if replies.publicIP.None? {
          assert out == Stopped(PublicIPFailed, requests);
          return Some(PublicIPFailed);
        }
        var ip := replies.publicIP.value;
        requests := requests + [CreateRecord(zoneID, RecordPayload(settings.dnsName, ip, settings.ipVersion, settings.ttl))];
        if replies.created.Failure? {
          assert out == Stopped(CreateFailed(replies.created.error), requests);
          return Some(CreateFailed(replies.created.error));
        }
        recordID := replies.created.value;
        lastIP := ip;
      } else {
        lastIP := record.value.content;
      }
      running := true;
      assert out == Running(zoneID, recordID, lastIP, requests);
      return None;
    }

    /** One iteration of main's loop. */
    method Step(c: Cycle) returns (e: Effect)
      requires Valid() && running
      modifies this`lastIP, this`requests
      ensures Valid()
      ensures e == StepEffect(old(lastIP), c)
      ensures lastIP == NextIP(old(lastIP), e)
      ensures requests == old(requests) +
        if e.IssuesUpdate() then [UpdateRecord(zoneID, recordID, RecordPayload(settings.dnsName, e.ip, settings.ipVersion, settings.ttl))]
        else []
    {
      match c.resolved
      case None =>
        e := ResolveFailed;
      case Some(ip) =>
        if ip != lastIP {
          requests := requests + [UpdateRecord(zoneID, recordID, RecordPayload(settings.dnsName, ip, settings.ipVersion, settings.ttl))];
          if c.updateDelivered {
            lastIP := ip;
            e := Updated(ip);
          } else {
            e := UpdateFailed(ip);
          }
        } else {
          e := Unchanged(ip);
        }
    }

    /** A finite prefix of main's endless loop. */
    method Run(cycles: seq<Cycle>) returns (effects: seq<Effect>)
      requires Valid() && running
      modifies this`lastIP, this`requests
      ensures Valid()
      ensures effects == Effects(old(lastIP), cycles)
      ensures lastIP == FinalIP(old(lastIP), cycles)
      ensures requests == old(requests) + UpdateRequests(settings, zoneID, recordID, UpdateContents(effects))
    {
      ghost var ip0, log0 := lastIP, requests;
      effects := [];
      var i := 0;
      while i < |cycles|
        invariant 0 <= i <= |cycles|
        invariant Valid() && running
        invariant effects == Effects(ip0, cycles[..i])
        invariant lastIP == FinalIP(ip0, cycles[..i])
        invariant requests == log0 + UpdateRequests(settings, zoneID, recordID, UpdateContents(effects))
      {
        RunSnoc(ip0, cycles, i);
        var e := Step(cycles[i]);
        LogSnoc(settings, zoneID, recordID, log0, effects, e);
        effects := effects + [e];
        i := i + 1;
      }
      assert cycles[..|cycles|] == cycles;
    }
  }
}
