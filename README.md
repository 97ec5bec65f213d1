# CloudFlare DDNS updater: a Dafny model of its decision logic

The updater keeps one DNS record at Cloudflare pointing at the machine's
current public IP address. At start-up it reads and defaults its
configuration, finds the zone (from the last two labels of the DNS name) and
the record, and either stops, creates the record, or seeds its cached
last-known IP from the record. It then loops forever: it resolves the public
IP and sends an update only when the address differs from the cache. The
cache moves only when the update request gets through. Every request to the
provider goes through a transport that makes up to three attempts, with
exponential backoff plus jitter between them.

The model keeps every decision and treats every network result as an input:

- `domain.dfy` (module `Domain`): Go's `strings.Split`/`strings.Join` on
  `"."` and `extractDomain`, with the domain characterised as the longest
  suffix of the name that holds at most one dot.
- `config.dfy` (`Config`): the defaulting of interval, TTL and IP version.
  The result of `strconv.Atoi` is an `Option<int>`.
- `transport.dfy` (`Transport`): `sendHTTPRequest` as a method with a
  `while` loop over attempt outcomes. It returns the response, the number of
  attempts and the sleeps taken, in nanoseconds as Go's `time.Duration`.
- `resolver.dfy` (`Resolver`): the choice of public-IP echo service in
  `getPublicIP`.
- `directory.dfy` (`Directory`): the requests sent to the provider, the
  create/update payload, and first-result selection for zone and record
  lookups.
- `reconcile.dfy` (`Reconcile`): the start-up phase and one steady-state
  iteration as functions, finite runs of iterations, and the lemmas about
  them.
- `updater.dfy` (`Updater`): the class `Reconciler`, holding `lastIP` and the
  start-up results as mutable fields and a ghost log of requests sent. Its
  methods `Start`, `Step` and `Run` are proved against the functions of
  `Reconcile`.
- `wrappers.dfy`, `errors.dfy`: `Option`/`Result` and the error values.

Points where the program's behaviour may be unexpected:

- Create and update count as successful whenever the transport delivered a
  reply. The status code is never inspected (main.go:241, 262-268).
- The first sleep of the transport is 2.1 s, not the initial delay of 1 s. The jitter is taken
  from the delay before it grows, and the sleep is the grown delay plus that
  jitter (main.go:290-297). The sleeps are therefore 2.1 s and 4.2 s.
- A record lookup that finds nothing is not an error: it yields an empty id
  and content with the DNS name (main.go:207). A listed record whose id is
  empty is treated as absent too, because main only tests the id
  (main.go:61).
- Every start-up failure ends `main` with a plain `return`. The model reports
  it as a `StopReason`.

## Model

| member | source | states |
|---|---|---|
| `Domain.SplitCount` | main.go:138-139 | `strings.Split` yields one more label than the name has dots, so the two-label branch is taken exactly when the name contains a dot |
| `Domain.JoinSplit` | main.go:138-140 | joining the labels with "." gives back the name |
| `Domain.LabelsHaveNoDot` | main.go:138 | no label contains a dot |
| `Domain.ExtractDomainOneLabel` | main.go:137-143 | a name without a dot is returned unchanged |
| `Domain.ExtractDomainTwoLabels` | main.go:137-143 | a name of two labels a.t is returned unchanged |
| `Domain.ExtractDomainMoreLabels` | main.go:137-143 | a name p.m.t whose last two labels m and t hold no dot gives m.t, whatever p is |
| `Domain.ExtractDomainIsLastTwoLabels` | main.go:137-143 | the domain is a suffix of the name; it is the whole name when the name has at most one dot, and otherwise the part after the second-to-last dot (exactly one dot, preceded by a dot in the name) |
| `Domain.ExtractDomainExamples` | main.go:137-143 | "host.sub.example.com" gives "example.com"; "example.com" and "localhost" are returned unchanged |
| `Config.PositiveOr` | main.go:24-28 | the result is positive; it is the parsed value when that parsed and is positive, and otherwise the default |
| `Config.Load` | main.go:18-38 | interval and TTL are positive and equal the parsed value when positive, else 600 and 120; an empty IP version becomes "ipv4" and any other is kept; auto-create holds exactly when the variable is "true" |
| `Config.LoadSpell` | main.go:24-38 | defaulting leaves valid settings unchanged, so it is idempotent |
| `Resolver.Endpoint` | main.go:109-121 | the URL is never empty; it is one of the two configured URLs or one of the two built-in services, the configured one of a family replacing its built-in one |
| `Resolver.EndpointMatchesRecordType` | main.go:109-121 | the IPv6 service (or its configured override) is asked exactly when the record written is AAAA, and the IPv4 service exactly when it is A |
| `Directory.RecordType` | main.go:218-219 | the type is "A" or "AAAA", and "AAAA" exactly when the IP version is "ipv6" |
| `Directory.RecordPayload` | main.go:212-220 | the body's type is "AAAA" iff the version is "ipv6" (else "A"); its name, content and TTL are the DNS name, the IP and the TTL given |
| `Directory.ZoneQuery` | main.go:146-147 | the zone lookup asks for the domain extracted from the DNS name |
| `Directory.FindZone` | main.go:145-175 | success exactly when the transport succeeded with a non-empty list, and then the first zone; a transport error is passed on; an empty list gives "zone not found" for the extracted domain |
| `Directory.FindRecord` | main.go:177-208 | fails exactly when the transport failed, passing its error on; otherwise the first record, or an empty record carrying the DNS name when the list is empty |
| `Transport.DelayClosedForm` | main.go:280-294 | after n failures the base delay is min(2^n s, 30 s) |
| `Transport.DelayBounds` | main.go:274-294 | the base delay stays between 1 s and 30 s and is a whole number of seconds |
| `Transport.JitterIsExact` | main.go:290 | the integer jitter d/10 equals the exact product d * 0.1 for every reachable delay, so rounding changes nothing |
| `Transport.PauseBound` | main.go:290-297 | each sleep is the grown delay plus a tenth of the previous delay, and at most 33 s |
| `Transport.ScheduleOfThreeAttempts` | main.go:272-298 | with three attempts the sleeps are 2.1 s and 4.2 s |
| `Transport.Send` | main.go:271-302 | 1 to 3 attempts; the attempts before the last all failed; success exactly when the last attempt delivered, returning that response; failure exactly when all three attempts failed, reporting 3 attempts; the sleeps are the backoff schedule, one per failed attempt followed by another attempt |
| `Transport.ThirdAttemptSucceeds` | main.go:280-299 | two failures then a delivery return that response after 3 attempts and sleeps of 2.1 s and 4.2 s |
| `Transport.EveryAttemptFails` | main.go:280-301 | three failures give the "failed after 3 attempts" error |
| `Reconcile.Startup` | main.go:47-83 | start-up first looks up the zone of the extracted domain, never sends an update, and sends at most one create: the last request, carrying the resolved address |
| `Reconcile.LookupFailureStops` | main.go:48-59 | a failed zone or record lookup stops the program before any create or update |
| `Reconcile.MissingRecordStops` | main.go:61-79 | an absent record with auto-create off stops after the two lookups with nothing written |
| `Reconcile.MissingRecordCreated` | main.go:61-75 | an absent record with auto-create on: a failed address lookup stops with nothing written; otherwise exactly one create carrying the resolved address, and the program runs, with the cache set to that address, iff the create was delivered |
| `Reconcile.ExistingRecordSeedsCache` | main.go:80-83 | a present record seeds the cache with its content and keeps its id; nothing is written |
| `Reconcile.StepEffect` | main.go:86-101 | a resolver failure does nothing; an update is sent exactly when the resolved address differs from the cache, and carries that address; the update counts as applied exactly when it was delivered |
| `Reconcile.NextIP` | main.go:91-98 | the cache changes only on an applied update, and an applied update always sets it to its address |
| `Reconcile.EffectAt` | main.go:85-106 | iteration i of a run acts as a single iteration from the cache the first i iterations left |
| `Reconcile.UpdatesOnlyOnDrift` | main.go:90-93 | every update sent in a run carries the address just resolved, and that address differs from the cache at that moment |
| `Reconcile.StableAddressNoUpdates` | main.go:86-100 | while the resolver reports the cached address or fails, no update is sent and the cache stays put |
| `Reconcile.FailedUpdatesAreRetried` | main.go:91-98 | after failed updates the cache is stale, so every later iteration with the same new address sends the update again; the cache becomes that address exactly when the last try is delivered |
| `Reconcile.CacheIsLastDelivered` | main.go:82-97 | the cache holds the address of the last applied update, or the start-up value when no update was applied |
| `Reconcile.ChangeTriggersOneUpdate` | main.go:91-98 | with cache a, resolving a and then b (a different from b) sends exactly one update, carrying b, whether or not it is delivered; the cache ends as b exactly when it is delivered |
| `Updater.Reconciler.constructor` | main.go:15-38 | the settings are the defaulted configuration; lastIP starts as the empty string and nothing has been sent |
| `Updater.Reconciler.Start` | main.go:47-83 | the requests sent, the stop reason or the zone, record and cached IP are those of `Reconcile.Startup`; the invariant `Valid` holds: every body sent is for the configured name, type and TTL |
| `Updater.Reconciler.Step` | main.go:86-102 | the effect and the new lastIP are those of `Reconcile.StepEffect`/`NextIP`; the log grows by exactly the one update sent, addressed to the zone and record found at start-up |
| `Updater.Reconciler.Run` | main.go:85-106 | after a finite run the effects and lastIP are `Reconcile.Effects`/`FinalIP` of the run; the log grows by one update per update sent, in order |

## Left out

- Reading environment variables and parsing them with `strconv.Atoi`: the parsed values are inputs (`Config.Environment`).
- All `fmt.Printf` logging.
- HTTP itself: URL formatting, headers, the bearer token (carried in the settings, never inspected), `http.Get` and `client.Do`. Their outcomes are inputs: the transport's attempt outcomes, the public-IP body, and the decoded replies.
- JSON encoding and decoding. A reply that fails to decode reads as an empty list or an empty id, as in the program. The model takes the decoded value directly.
- `time.Sleep`: the transport returns the durations it would sleep. The sleep of `interval` seconds between steady-state iterations is not modelled; the interval is only defaulted.
- The endless `for {}` loop: it is modelled by `Step` and by `Run` over a finite sequence of iterations.
- Floating-point arithmetic in the backoff: durations are integer nanoseconds. `*2.0` becomes doubling and `round(*0.1)` becomes division by 10, which `Transport.JitterIsExact` shows to be exact for every reachable delay.
- The public-IP fetch of `getPublicIP` does not go through the retrying transport. Its result (the body verbatim, or a failure) is an input, and only the choice of endpoint is modelled.
- The retrying transport is not composed with the directory calls: `Transport.Send` is proved on its own, and the start-up and steady-state models take each lookup, create or update result as any `Result`, so a failure there need not be the "failed after 3 attempts" error.
- One entry in the request log of `Updater.Reconciler` stands for one call of `createDNSRecord` or `updateDNSRecord`. Through the transport such a call may reach the provider up to three times (main.go:228, 262, 281-299), so "exactly one create" means one call, not one POST.
- The public-IP response body is not checked to be an address, nor one of the record's family: `getPublicIP` returns it verbatim (main.go:129-134), and the model takes it as any string, which is then written as the record's content.
