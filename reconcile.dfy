/** The decisions of the reconciliation loop in main, as functions of the
    replies the program receives: the start-up phase, one steady-state cycle,
    and finite runs of cycles. */
module Reconcile {
  import opened Wrappers
  import opened Errors
  import opened Config
  import opened Directory

  /** Why start-up ended the program. */
  datatype StopReason =
    | ZoneLookupFailed(error: Error)
    | RecordLookupFailed(error: Error)
    | RecordMissing                 // no record and auto-creation disabled
    | PublicIPFailed
    | CreateFailed(error: Error)

  /** What the network answers during start-up. Each lookup and the create is
      the result of the retrying transport; the create's value is the id
      decoded from the reply (empty when the reply did not decode). */
  datatype StartupReplies = StartupReplies(
    zones: Result<seq<Zone>, Error>,
    records: Result<seq<DnsRecord>, Error>,
    publicIP: Option<string>,
    created: Result<string, Error>)

  /** The end of start-up: the program either returned from main or enters
      the steady-state loop with a zone, a record and a cached IP. */
  datatype StartupOutcome =
    | Stopped(reason: StopReason, requests: seq<Request>)
    | Running(zoneID: string, recordID: string, lastIP: string, requests: seq<Request>)

  /** The start-up phase of main. */
  function Startup(s: Settings, replies: StartupReplies): (out: StartupOutcome)
    ensures |out.requests| >= 1 && out.requests[0] == ZoneQuery(s.dnsName)
    ensures forall i :: 0 <= i < |out.requests| ==> !out.requests[i].UpdateRecord?
    ensures forall i :: 0 <= i < |out.requests| && out.requests[i].CreateRecord? ==>
      i == |out.requests| - 1 && replies.publicIP.Some? &&
      out.requests[i].payload == RecordPayload(s.dnsName, replies.publicIP.value, s.ipVersion, s.ttl)
  {
    var lookupZone := [ZoneQuery(s.dnsName)];
    match FindZone(s.dnsName, replies.zones)
    case Failure(e) => Stopped(ZoneLookupFailed(e), lookupZone)
    case Success(zone) =>
      var lookups := lookupZone + [ListRecords(zone.id, s.dnsName)];
      match FindRecord(s.dnsName, replies.records)
      case Failure(e) => Stopped(RecordLookupFailed(e), lookups)
      case Success(record) =>
        if record.id != "" then
          Running(zone.id, record.id, record.content, lookups)
        else if !s.autoCreate then
          Stopped(RecordMissing, lookups)
        else
          match replies.publicIP
          case None => Stopped(PublicIPFailed, lookups)
          case Some(ip) =>
            var created := lookups + [CreateRecord(zone.id, RecordPayload(s.dnsName, ip, s.ipVersion, s.ttl))];
            match replies.created
            case Failure(e) => Stopped(CreateFailed(e), created)
            case Success(id) => Running(zone.id, id, ip, created)
  }

  /** The two lookups start-up sends once the zone is known. */
  function Lookups(s: Settings, zone: Zone): seq<Request>
  {
    [ZoneQuery(s.dnsName), ListRecords(zone.id, s.dnsName)]
  }

  /** A failed zone or record lookup ends the program before anything is
      written. */
  lemma LookupFailureStops(s: Settings, replies: StartupReplies)
    requires FindZone(s.dnsName, replies.zones).Failure? ||
             FindRecord(s.dnsName, replies.records).Failure?
    ensures Startup(s, replies).Stopped?
    ensures forall i :: 0 <= i < |Startup(s, replies).requests| ==> !Startup(s, replies).requests[i].IsWrite()
    ensures FindZone(s.dnsName, replies.zones).Failure? ==>
      Startup(s, replies) == Stopped(ZoneLookupFailed(FindZone(s.dnsName, replies.zones).error), [ZoneQuery(s.dnsName)])
  {
  }

  /** A missing record with auto-creation off ends the program after the two
      lookups, with nothing written. */
  lemma MissingRecordStops(s: Settings, replies: StartupReplies)
    requires FindZone(s.dnsName, replies.zones).Success?
    requires replies.records == Success([]) || (replies.records.Success? && replies.records.value != [] && replies.records.value[0].id == "")
    requires !s.autoCreate
    ensures Startup(s, replies) == Stopped(RecordMissing, Lookups(s, FindZone(s.dnsName, replies.zones).value))
  {
  }

  /** A missing record with auto-creation on is created once, with the
      resolved address; the cache holds that address only if the create went
      through, and a failed create or address lookup ends the program. */
  lemma MissingRecordCreated(s: Settings, replies: StartupReplies)
    requires FindZone(s.dnsName, replies.zones).Success?
    requires FindRecord(s.dnsName, replies.records).Success?
    requires FindRecord(s.dnsName, replies.records).value.id == ""
    requires s.autoCreate
    ensures var zone := FindZone(s.dnsName, replies.zones).value;
      var out := Startup(s, replies);
      (replies.publicIP.None? ==> out == Stopped(PublicIPFailed, Lookups(s, zone))) &&
      (replies.publicIP.Some? ==>
        out.requests == Lookups(s, zone) +
          [CreateRecord(zone.id, RecordPayload(s.dnsName, replies.publicIP.value, s.ipVersion, s.ttl))] &&
        (out.Running? <==> replies.created.Success?) &&
        (out.Running? ==> out.lastIP == replies.publicIP.value && out.recordID == replies.created.value) &&
        (out.Stopped? ==> out.reason == CreateFailed(replies.created.error)))
  {
  }

  /** An existing record seeds the cache with its content; nothing is
      written. */
  lemma ExistingRecordSeedsCache(s: Settings, replies: StartupReplies)
    requires FindZone(s.dnsName, replies.zones).Success?
    requires replies.records.Success? && |replies.records.value| > 0
    requires replies.records.value[0].id != ""
    ensures var zone := FindZone(s.dnsName, replies.zones).value;
      var record := replies.records.value[0];
      Startup(s, replies) == Running(zone.id, record.id, record.content, Lookups(s, zone))
  {
  }

  // ---------------------------------------------------------------------
  // Steady state

  /** What one iteration of the loop receives: the resolver's answer, and
      whether the transport delivered the update request (the program does
      not look at the reply's status code). */
  datatype Cycle = Cycle(resolved: Option<string>, updateDelivered: bool)

  /** What one iteration did. */
  datatype Effect =
    | ResolveFailed
    | Unchanged(ip: string)
    | Updated(ip: string)
    | UpdateFailed(ip: string)
  {
    predicate IssuesUpdate()
    {
      Updated? || UpdateFailed?
    }
  }

  /** One iteration of the loop, given the cached IP. */
  function StepEffect(lastIP: string, c: Cycle): (e: Effect)
    ensures e.ResolveFailed? <==> c.resolved.None?
    ensures e.IssuesUpdate() <==> c.resolved.Some? && c.resolved.value != lastIP
    ensures !e.ResolveFailed? ==> e.ip == c.resolved.value
    ensures e.Updated? <==> e.IssuesUpdate() && c.updateDelivered
  {
    match c.resolved
    case None => ResolveFailed
    case Some(ip) =>
      if ip == lastIP then Unchanged(ip)
      else if c.updateDelivered then Updated(ip)
      else UpdateFailed(ip)
  }

  /** The cache after an iteration: it moves only on a delivered update. */
  function NextIP(lastIP: string, e: Effect): (next: string)
    ensures next != lastIP ==> e.Updated? && next == e.ip
    ensures e.Updated? ==> next == e.ip
  {
    if e.Updated? then e.ip else lastIP
  }

  /** The cache after a run of iterations. */
  function FinalIP(lastIP: string, cycles: seq<Cycle>): string
  {
    if cycles == [] then lastIP
    else
      var before := FinalIP(lastIP, cycles[..|cycles| - 1]);
      NextIP(before, StepEffect(before, cycles[|cycles| - 1]))
  }

  /** What each iteration of a run did. */
  function Effects(lastIP: string, cycles: seq<Cycle>): (es: seq<Effect>)
    ensures |es| == |cycles|
  {
    if cycles == [] then []
    else
      var n := |cycles| - 1;
      Effects(lastIP, cycles[..n]) + [StepEffect(FinalIP(lastIP, cycles[..n]), cycles[n])]
  }

  /** The content of every update request issued, in order. */
  function UpdateContents(es: seq<Effect>): (ips: seq<string>)
    ensures |ips| <= |es|
  {
    if es == [] then []
    else
      var n := |es| - 1;
      UpdateContents(es[..n]) + (if es[n].IssuesUpdate() then [es[n].ip] else [])
  }

  /** Extending a run by one iteration. */
  lemma RunSnoc(lastIP: string, cycles: seq<Cycle>, i: nat)
    requires i < |cycles|
    ensures var before := FinalIP(lastIP, cycles[..i]);
      var e := StepEffect(before, cycles[i]);
      Effects(lastIP, cycles[..i + 1]) == Effects(lastIP, cycles[..i]) + [e] &&
      FinalIP(lastIP, cycles[..i + 1]) == NextIP(before, e)
  {
    assert cycles[..i + 1][..i] == cycles[..i];
  }

  /** Iteration i of a run behaves as a single iteration from the cache that
      the first i iterations left. */
  lemma {:induction false} EffectAt(lastIP: string, cycles: seq<Cycle>, i: nat)
    requires i < |cycles|
    ensures Effects(lastIP, cycles)[i] == StepEffect(FinalIP(lastIP, cycles[..i]), cycles[i])
  {
    var n := |cycles| - 1;
    if i < n {
      EffectAt(lastIP, cycles[..n], i);
      assert cycles[..n][..i] == cycles[..i];
    } else {
      assert cycles[..i] == cycles[..n];
    }
  }

  /** No spurious updates: every update a run issues carries the address just
      resolved, and that address differs from the cached one. */
  lemma UpdatesOnlyOnDrift(lastIP: string, cycles: seq<Cycle>)
    ensures forall i :: 0 <= i < |cycles| && Effects(lastIP, cycles)[i].IssuesUpdate() ==>
      cycles[i].resolved == Some(Effects(lastIP, cycles)[i].ip) &&
      Effects(lastIP, cycles)[i].ip != FinalIP(lastIP, cycles[..i])
  {
    forall i | 0 <= i < |cycles| && Effects(lastIP, cycles)[i].IssuesUpdate()
      ensures cycles[i].resolved == Some(Effects(lastIP, cycles)[i].ip)
      ensures Effects(lastIP, cycles)[i].ip != FinalIP(lastIP, cycles[..i])
    {
      EffectAt(lastIP, cycles, i);
    }
  }

  /** While the resolver keeps reporting the cached address (or fails), no
      update is issued and the cache does not move. */
  lemma {:induction false} StableAddressNoUpdates(ip: string, cycles: seq<Cycle>)
    requires forall i :: 0 <= i < |cycles| ==> cycles[i].resolved.None? || cycles[i].resolved.value == ip
    ensures FinalIP(ip, cycles) == ip
    ensures UpdateContents(Effects(ip, cycles)) == []
  {
    if cycles != [] {
      var n := |cycles| - 1;
      StableAddressNoUpdates(ip, cycles[..n]);
      assert Effects(ip, cycles)[..n] == Effects(ip, cycles[..n]);
    }
  }

  /** A failed update leaves the cache stale, so every later iteration that
      resolves the same new address sends the update again, until one of
      them is delivered; only that one moves the cache. */
  lemma {:induction false} FailedUpdatesAreRetried(lastIP: string, ip: string, cycles: seq<Cycle>)
    requires ip != lastIP
    requires forall i :: 0 <= i < |cycles| ==> cycles[i].resolved == Some(ip)
    requires forall i :: 0 <= i < |cycles| - 1 ==> !cycles[i].updateDelivered
    ensures FinalIP(lastIP, cycles) ==
      if cycles != [] && cycles[|cycles| - 1].updateDelivered then ip else lastIP
    ensures |UpdateContents(Effects(lastIP, cycles))| == |cycles|
    ensures forall k :: 0 <= k < |cycles| ==> UpdateContents(Effects(lastIP, cycles))[k] == ip
  {
    if cycles != [] {
      var n := |cycles| - 1;
      FailedUpdatesAreRetried(lastIP, ip, cycles[..n]);
      assert FinalIP(lastIP, cycles[..n]) == lastIP;
      assert Effects(lastIP, cycles)[..n] == Effects(lastIP, cycles[..n]);
    }
  }

  /** Iteration i is the last one of es that delivered an update. */
  predicate LastDelivered(es: seq<Effect>, i: int)
  {
    0 <= i < |es| && es[i].Updated? && forall j :: i < j < |es| ==> !es[j].Updated?
  }

  /** The cache always holds the address of the most recent delivered update,
      or the start-up value when no update was delivered. */
  lemma {:induction false} CacheIsLastDelivered(lastIP: string, cycles: seq<Cycle>)
    ensures (forall i :: 0 <= i < |cycles| ==> !Effects(lastIP, cycles)[i].Updated?) ==>
      FinalIP(lastIP, cycles) == lastIP
    ensures forall i :: LastDelivered(Effects(lastIP, cycles), i) ==>
      FinalIP(lastIP, cycles) == Effects(lastIP, cycles)[i].ip
  {
    if cycles != [] {
      var n := |cycles| - 1;
      var es := Effects(lastIP, cycles);
      var prefix := Effects(lastIP, cycles[..n]);
      var before := FinalIP(lastIP, cycles[..n]);
      CacheIsLastDelivered(lastIP, cycles[..n]);
      assert es[..n] == prefix;
      assert es[n] == StepEffect(before, cycles[n]);
      assert FinalIP(lastIP, cycles) == NextIP(before, es[n]);
      if forall i :: 0 <= i < |cycles| ==> !es[i].Updated? {
        assert forall i :: 0 <= i < n ==> !prefix[i].Updated?;
      }
      forall i | LastDelivered(es, i)
        ensures FinalIP(lastIP, cycles) == es[i].ip
      {
        if i < n {
          assert LastDelivered(prefix, i);
        }
      }
    }
  }

  /** Once the cache holds a then b is resolved, exactly one update, carrying
      b, is sent; the cache becomes b exactly when it is delivered. */
  lemma ChangeTriggersOneUpdate(a: string, b: string, d1: bool, d2: bool)
    requires a != b
    ensures var cycles := [Cycle(Some(a), d1), Cycle(Some(b), d2)];
      UpdateContents(Effects(a, cycles)) == [b] && FinalIP(a, cycles) == (if d2 then b else a)
  {
    var first := [Cycle(Some(a), d1)];
    var cycles := first + [Cycle(Some(b), d2)];
    assert cycles[..1] == first && first[..0] == [];
    assert Effects(a, first) == [Unchanged(a)];
    assert FinalIP(a, first) == a;
    var es := Effects(a, cycles);
    assert es == [Unchanged(a), if d2 then Updated(b) else UpdateFailed(b)];
    assert es[..1] == [Unchanged(a)] && es[..1][..0] == [];
  }
}
