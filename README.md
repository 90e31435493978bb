# Cloudflare dynamic-DNS updater for Synology DSM, modelled in Dafny

`cloudflare.php` is the updater DSM runs when the NAS's address changes. It
gets the account, the API key, a `---`-separated list of host names and the
IPv4 address DSM knows. It also asks ipify for the public address.

A run does the following:

1. It validates both addresses and stores each in `ipv4` or `ipv6`, by family.
2. It builds a host list keyed by full name.
3. It lists the account's zones and gives each host the first zone whose
   name occurs in the host's full name.
4. For every host with a non-empty name and a zone it looks up the
   existing A record, and the AAAA record when an IPv6 address is known.
   A host whose zoneId is empty (no zone matched, or the zone's id is `""`
   or `"0"`) is removed from the host list. A host named `""`
   or `"0"` is skipped. It turns each record found into an entry
   of an update plan (`dnsRecordIdList`) keyed by record id.
5. `makeUpdateDNS` PATCHes every plan entry in order and stops at the first
   failure.

The run ends by printing one token: `good`, `badauth`, a bad-parameter
message, or `Update Record failed`. The model has a fifth outcome,
`TypeError`. It arises when both addresses are accepted as IPv6 and the
zone listing succeeds. Then `ipv4` is still null at the first call of
`setRecord`, and PHP rejects the null passed to its `string $ip`
parameter.

The model replaces the network with data:

- an `Api` value holds the zone-list answer, a function giving the answer
  to each record lookup, and a function telling whether each PATCH succeeds;
- an `IpFilter` holds the two `filter_var` tests;
- every request the updater issues is appended to a log, `calls`, so the
  contracts can say which requests a run sends.

Each `echo …; exit()` becomes an `Outcome`.

Modules:

- `Php` models the PHP built-ins the code depends on:
  - `empty()` on strings, which is true for `""` and `"0"`;
  - `strpos(...) !== false`;
  - `explode`, with `implode` as the inverse that states its round trip
    (`implode` itself is not called by the code);
  - PHP's ordered arrays with string keys (`PhpArray`): assigning to a new
    key appends it, assigning an existing key keeps its place, and `unset`
    removes the key.
- `Cloudflare` holds the data: zones, hosts, plan entries, requests,
  responses and outcomes.
- `Zones` models `isZonesContainFullname`, the resolve step of `setZones`,
  and the classification of a failed zone listing.
- `Plan` gives one pure state transition per method of `updateCFDDNS`.
  These are the reference definitions.
- `Updater` holds the class `CfDdnsUpdater`. It has the fields `ipv4`,
  `ipv6`, `hostList`, `dnsRecordIdList` and `calls`. Its methods use the
  source's loops and field updates. Each method is proved to end in the
  state, and with the exit, that its `Plan` or `Zones` function gives.
- `HostFacts`, `RecordFacts`, `UpdateFacts` and `RunFacts` prove what the
  code promises about those transitions, one call at a time and over
  whole runs.

### Where the code departs from the behaviour one would expect

In each case the model follows the code.

- **Matching.** In DNS a zone owns a name when the name is the zone
  itself or ends in a dot followed by the zone's name. That is a
  label-aligned suffix, and the closest such zone is the owner. The code
  instead uses a raw substring test, and the first match in provider
  order wins:
  - `"example.com"` matches `"notexample.com"` and
    `"example.com.evil.com"`;
  - an earlier parent zone beats a later, closer one.
  `Zones.SubstringMatchCrossesLabels`, `Zones.SubstringMatchIgnoresPosition`
  and `Zones.ProviderOrderWins` prove these cases.
- **Nothing to update.** A host that resolves but has no existing record
  adds nothing to the plan. When it is the only host, one would expect a
  bad-parameter result, because nothing can be updated. The code checks
  only that the host list is not empty, so the run reports `good` without
  sending a PATCH (`RunFacts.NothingFoundReportsGood`). This needs four
  conditions:
  - both addresses are accepted, because otherwise the run ends with
    "invalid ip-address" before any request;
  - one of the two addresses is IPv4, because otherwise the run ends with
    `TypeError` at the first host;
  - the matching zone's id is neither `""` nor `"0"`, because otherwise
    `setRecord` removes the host and the run stops with "empty host list";
  - the zone listing and every lookup succeed.
- **No zone matches.** Then `setRecord` removes every host, and
  `makeUpdateDNS` stops with "empty host list"
  (`RunFacts.NoZoneMatchEmptiesHostList`). This needs four conditions:
  - both addresses are accepted, because otherwise the run ends with
    "invalid ip-address" before any request;
  - the zone listing succeeds, because otherwise the run ends with
    `badauth` or the getZone abort;
  - every requested name is other than `""` and `"0"`, because `setRecord`
    skips those without removing them, so `unknown.tld---` reports `good`;
  - one of the two addresses is IPv4, because with two IPv6 addresses the
    run ends with `TypeError` at the first host.
- **Empty host argument.** `explode` always returns at least one element,
  so the empty-host-list check in `__construct` never fires. An empty host
  argument gives one host named `""`. When both addresses are accepted, one
  of them is IPv4, and the zone listing succeeds, `setRecord` skips that host without
  removing it, and the run reports `good`
  (`RunFacts.EmptyHostArgumentReportsGood`). With two IPv6 addresses the
  run ends with `TypeError` instead.

## Model

| member | source | states |
|---|---|---|
| Php.ContainsIffOccurs | cloudflare.php:180-180 | The `strpos` test holds exactly when the needle occurs at some offset of the full name. |
| Php.Contains | cloudflare.php:180-180 | `strpos($fullname, $name) !== false` as a scan over the full name. `Php.ContainsIffOccurs` states its meaning. |
| Php.IsEmptyString | cloudflare.php:193-199 | `empty()` on a string: true for `""` and `"0"`. `RecordFacts.SetRecordSkipsEmptyName` and `RecordFacts.SetRecordDropsHostWithoutZone` state what the two tests decide. |
| Php.Explode | cloudflare.php:60-60 | `explode('---', $hostname)`. `Php.ExplodeNonEmpty`, `Php.ImplodeExplode` and `Php.ExplodeSplitsAtEverySeparator` state its meaning. |
| Php.ExplodeFrom | cloudflare.php:60-60 | The scan behind `Php.Explode`, with the current piece collected so far. `Php.ExplodeFromSplitsAtEverySeparator` states its meaning. |
| Php.ExplodeSplitsAtEverySeparator | cloudflare.php:60-60 | explode splits at every separator: no piece it returns contains `---`. |
| Php.ExplodeFromSplitsAtEverySeparator | cloudflare.php:60-60 | When no separator starts inside the piece collected so far, no piece of the rest of the scan contains a separator. |
| Php.NoOccurrenceInPiece | cloudflare.php:60-60 | A piece inside which no separator starts does not contain the separator. |
| Php.ExplodeNonEmpty | cloudflare.php:60-63 | `explode` returns at least one piece for every input string, so the empty-host-list check at line 61 cannot fire. |
| Php.ImplodeExplode | cloudflare.php:60-60 | Joining the pieces of `explode` with the separator gives the host argument back, so the split loses nothing. |
| Php.Without | cloudflare.php:200-200 | The keys left after `unset` are exactly the old keys other than the removed one, and they stay distinct. |
| Php.PhpArray.Set | cloudflare.php:66-70 | Assignment stores the value under the key. A new key is appended and an existing key keeps its position. The array stays well formed. |
| Php.PhpArray.Unset | cloudflare.php:199-202 | `unset` removes the key and its value and keeps the order of the other keys. |
| Cloudflare.BadParamText | cloudflare.php:107-111 | badParam prints its message when the message is non-empty and `badparam` otherwise, never an empty text. |
| Zones.FirstMatch | cloudflare.php:177-186 | The result is a listed zone whose name occurs in the full name. It is empty exactly when no listed zone's name occurs in it. |
| Zones.FirstMatchIsFirst | cloudflare.php:179-183 | The earliest matching zone in provider order is the one returned; no later zone is chosen over it. |
| Zones.ResolveHost | cloudflare.php:165-169 | Resolving a host never changes its full name. |
| Zones.ResolveKey | cloudflare.php:164-170 | One iteration of setZones' loop keeps the host list well formed and its keys unchanged. |
| Zones.ResolveZones | cloudflare.php:164-170 | setZones' loop keeps the host list well formed and its keys unchanged. |
| Zones.ClassifyZoneFailure | cloudflare.php:146-154 | A failed zone listing gives `badauth` exactly when the first error has code 9109 or 6003; otherwise it gives the bad-parameter abort "getZone unsuccessful response". |
| Zones.IsAuthErrorCode | cloudflare.php:148-148 | The codes 9109 and 6003 that mean rejected credentials. `Zones.ClassifyZoneFailure` states what they decide. |
| Zones.LabelSuffixMatches | cloudflare.php:180-180 | Every zone that owns a host by label-aligned suffix also passes the substring test. |
| Zones.OwnedHostIsResolved | cloudflare.php:164-170 | A host that some listed zone owns by label alignment always gets a zone. |
| Zones.SubstringMatchCrossesLabels | cloudflare.php:180-180 | The zone `example.com` matches `notexample.com` although it does not own it by label alignment. |
| Zones.SubstringMatchIgnoresPosition | cloudflare.php:180-180 | The zone `example.com` matches `example.com.evil.com`, a name it does not own. |
| Zones.ProviderOrderWins | cloudflare.php:179-183 | With `example.com` listed before `vpn.example.com`, the host `a.vpn.example.com` gets the parent zone even though the later zone owns it more closely. |
| Plan.ValidateIp | cloudflare.php:120-130 | validateIp never touches the host list, the plan or the request log. It continues exactly when the address is public IPv6 or public IPv4. An IPv6 address goes to `ipv6` and leaves `ipv4`; otherwise an IPv4 address goes to `ipv4` and leaves `ipv6`. Anything else aborts with "invalid ip-address" and changes nothing. |
| Plan.BuildHostList | cloudflare.php:65-71 | Building the host list keeps the array well formed. |
| Plan.NewHost | cloudflare.php:66-70 | The fresh entry for a name: empty hostname and zoneId, the name as fullname. `HostFacts.BuildHostListSpec` states that every requested name gets one. |
| Plan.SetZones | cloudflare.php:143-171 | setZones keeps the updater's arrays well formed. |
| Plan.SetRecord | cloudflare.php:191-220 | setRecord keeps the arrays well formed and never changes `ipv4` or `ipv6`. |
| Plan.LookupRequest | cloudflare.php:206-206 | The GET for a host's records of one type in its zone. `RecordFacts.SetRecordLookupFailureStops` and `RecordFacts.SetRecordPlansFirstRecord` state when it is sent. |
| Plan.HostsInOrder | cloudflare.php:75-75 | Proof vocabulary: the copy the record loop walks, one host per key, in key order. |
| Plan.SetHostRecords | cloudflare.php:75-79 | One iteration of the record loop keeps the arrays well formed and the addresses unchanged. |
| Plan.Ipv6Enabled | cloudflare.php:77-77 | `if ($this->ipv6)`: ipv6 holds a string PHP counts as true. `RecordFacts.HostRecordsPlanFoundRecord` states that the AAAA record is then planned. |
| Plan.SetRecords | cloudflare.php:75-80 | The record loop keeps the arrays well formed and the addresses unchanged. |
| Plan.Construct | cloudflare.php:41-81 | __construct ends with well-formed arrays, however it ends. |
| Plan.Body | cloudflare.php:93-94 | The PATCH body: the plan entry without `zoneId`. `UpdateFacts.PatchAllSends` states that these bodies are sent. |
| Plan.PatchRequest | cloudflare.php:93-96 | The PATCH to the entry's zone and record id with that body. `UpdateFacts.PatchAllSends` states that these are sent, in plan order. |
| Plan.PatchAll | cloudflare.php:92-102 | makeUpdateDNS's loop. `UpdateFacts.PatchAllStops`, `UpdateFacts.PatchAllOnlyLogs` and `UpdateFacts.PatchAllSends` state its meaning. |
| Plan.MakeUpdateDns | cloudflare.php:86-105 | makeUpdateDNS. `UpdateFacts.MakeUpdateDnsSpec` states its meaning. |
| Plan.Run | cloudflare.php:9-10 | The script: construct, then makeUpdateDNS unless the run has stopped. `RunFacts.RunRequestsWellFormed` and the `RunFacts` lemmas on how runs end state its meaning. |
| Updater.CfDdnsUpdater.constructor | cloudflare.php:38-39 | A new updater has no addresses (`ipv4` null, `ipv6` false), no hosts, an empty plan and no requests sent. |
| Updater.CfDdnsUpdater.Construct | cloudflare.php:48-80 | The body of __construct, run on the fields, ends in the state and with the exit that `Plan.Construct` gives: the two address checks, the split, the host list, setZones, then the record loop. |
| Updater.CfDdnsUpdater.AddHosts | cloudflare.php:65-71 | The loop over the exploded names leaves `hostList` equal to `Plan.BuildHostList` of the old one. |
| Updater.CfDdnsUpdater.SetHostsRecords | cloudflare.php:75-80 | The loop over a copy of the host list ends as `Plan.SetRecords` over the hosts in key order, stopping where the run stops. |
| Updater.CfDdnsUpdater.SetHostRecords | cloudflare.php:76-79 | One iteration makes the A record call with `ipv4` (a type error when `ipv4` is null), then the AAAA one when `ipv6` is set, as `Plan.SetHostRecords`. |
| Updater.CfDdnsUpdater.MakeUpdateDns | cloudflare.php:86-105 | makeUpdateDNS changes only the request log and ends as `Plan.MakeUpdateDns`: an empty host list stops the run, otherwise the plan is PATCHed in order, fail-fast. |
| Updater.CfDdnsUpdater.ValidateIp | cloudflare.php:120-130 | validateIp stores a public IPv6 address in `ipv6`, else a public IPv4 address in `ipv4`, else aborts with "invalid ip-address", as `Plan.ValidateIp`. |
| Updater.CfDdnsUpdater.SetZones | cloudflare.php:143-171 | setZones records the zone-list request. It stops on a failed listing as `ClassifyZoneFailure` says, or else resolves every host, as `Plan.SetZones`. |
| Updater.CfDdnsUpdater.ResolveHosts | cloudflare.php:164-170 | The resolve loop leaves `hostList` equal to `ResolveZones` over the keys it started with. |
| Updater.CfDdnsUpdater.ResolveHostAt | cloudflare.php:165-169 | One iteration copies the first matching zone's id and name into the host's entry. |
| Updater.CfDdnsUpdater.IsZonesContainFullname | cloudflare.php:177-186 | The search loop with its `break` returns exactly `FirstMatch`: the first zone in list order whose name occurs in the full name. |
| Updater.CfDdnsUpdater.SetRecord | cloudflare.php:191-220 | setRecord run on the fields ends as `Plan.SetRecord`: skip, drop the host, abort on a failed lookup, or plan the first record found. |
| Updater.Run | cloudflare.php:9-10 | The script's outcome and the requests it sends are those of `Plan.Run`. |
| HostFacts.CallerAddressWins | cloudflare.php:51-58 | When both addresses are valid, the command-line address is checked second. It replaces the discovered one when the two are of the same family; otherwise each lands in its own field. The host list, the plan and the request log are untouched. |
| HostFacts.BuildHostListSpec | cloudflare.php:65-71 | Every requested name becomes a key whose entry has that full name and an empty hostname and zoneId. A repeated name collapses into one entry. Other keys keep their entries. |
| HostFacts.BuildHostListKeepsOrder | cloudflare.php:65-71 | Building appends at most one key per name and keeps the earlier keys, in order, ahead of the new ones. |
| HostFacts.FreshHostListStartsWithFirstName | cloudflare.php:65-71 | A non-empty list of names gives a non-empty host list whose first key is the first requested name. |
| HostFacts.ResolveZonesSpec | cloudflare.php:164-170 | setZones' loop keeps the keys. Each visited host becomes `ResolveHost` of itself, and every other host is untouched. |
| HostFacts.ResolvedFreshHosts | cloudflare.php:156-170 | After a successful listing the keys are exactly the requested names, each entry keeps its name as full name, and a host gets the first matching zone's id and name. A host that no zone matches keeps an empty zoneId and hostname. |
| RecordFacts.SetRecordSkipsEmptyName | cloudflare.php:193-195 | A host with an empty full name changes nothing and sends nothing. |
| RecordFacts.SetRecordDropsHostWithoutZone | cloudflare.php:197-202 | A host without a zone is removed from the host list and nothing else goes. The plan and the request log are unchanged. |
| RecordFacts.SetRecordLookupFailureStops | cloudflare.php:204-210 | A failed lookup aborts with the message naming the host, after that one request. The plan and the host list are unchanged. |
| RecordFacts.SetRecordPlansFirstRecord | cloudflare.php:206-219 | A successful lookup with no result leaves the plan unchanged. Otherwise exactly the entry under the first result's id is written, with the requested type, the host's name and zone, the given address, and the record's ttl and proxied flag. Every other entry stays. |
| RecordFacts.SameRecordIdOverwrites | cloudflare.php:212-219 | A later lookup returning the same record id overwrites its entry in place, so the plan keeps one entry per record id. |
| RecordFacts.SetRecordKeepsInvariant | cloudflare.php:191-220 | setRecord keeps both parts of the record-loop invariant: every plan entry targets a resolved host with the updater's own address of its type, and only listings and lookups for resolved hosts were sent. |
| RecordFacts.SetRecordKeepsTargets | cloudflare.php:212-219 | Every entry setRecord writes updates a resolved host to the address passed for its record type. |
| RecordFacts.SetRecordKeepsRequests | cloudflare.php:204-206 | setRecord sends only lookups for hosts with a non-empty name and zone. |
| RecordFacts.SetHostRecordsKeepsInvariant | cloudflare.php:76-79 | One iteration of the record loop keeps the invariant. |
| RecordFacts.SetRecordsKeepsInvariant | cloudflare.php:75-80 | The record loop keeps the invariant, whichever hosts it visits and wherever it stops. |
| RecordFacts.FullNames | cloudflare.php:200-200 | Proof vocabulary: the set holds exactly the full names of the given hosts, the keys line 200 can unset. |
| RecordFacts.UnresolvedHostsDropped | cloudflare.php:75-80 | Suppose an IPv4 address is known, and every given host has a name other than `""` and `"0"` and an empty zoneId. Then the record loop over them removes exactly their entries. It sends nothing and plans nothing. |
| RecordFacts.UnresolvedHostDropped | cloudflare.php:76-79 | Suppose an IPv4 address is known. Then one iteration for a host with a name other than `""` and `"0"` and an empty zoneId removes exactly its entry and changes nothing else. |
| RecordFacts.UnresolvedListEmptied | cloudflare.php:75-80 | Suppose an IPv4 address is known, and every host is keyed by its full name, which is other than `""` and `"0"`, and has an empty zoneId. Then the record loop empties the host list, with no request sent. |
| RecordFacts.NoEntriesNoKeys | cloudflare.php:88-88 | A well-formed PHP array with no entries has no keys, so `empty()` sees it as empty. |
| RecordFacts.UnresolvedNames | cloudflare.php:199-200 | Proof vocabulary: the set holds exactly the hosts with a name other than `""` and `"0"` and an empty zoneId. |
| RecordFacts.RecordLoopRemovesOnlyUnresolved | cloudflare.php:75-80 | Whatever the provider answers, the record loop removes no host other than those with a name other than `""` and `"0"` and an empty zoneId. |
| RecordFacts.HostRecordsRemoveOnlyUnresolved | cloudflare.php:76-79 | One iteration removes at most the visited host, and only when its name is other than `""` and `"0"` and its zoneId is empty. |
| RecordFacts.NothingFoundPlansNothing | cloudflare.php:208-212 | Suppose an IPv4 address is known and every lookup succeeds without a result. Then the record loop never stops the run and plans nothing. |
| RecordFacts.ResolvedHostStays | cloudflare.php:75-80 | In a host list keyed by full name, whatever the provider answers, a host whose zoneId is neither `""` nor `"0"` stays in the host list through the record loop. |
| RecordFacts.ResolvedHostKept | cloudflare.php:75-80 | Suppose an IPv4 address is known, the host list is keyed by full name, and every lookup succeeds with no result. Then the record loop never stops the run, plans nothing, and keeps a host whose zoneId is neither `""` nor `"0"`, so the list is not empty afterwards. |
| RecordFacts.SetRecordKeepsPlanKeys | cloudflare.php:212-219 | setRecord never removes a plan entry. |
| RecordFacts.SetHostRecordsKeepsPlanKeys | cloudflare.php:76-79 | One iteration of the record loop never removes a plan entry. |
| RecordFacts.SetRecordsKeepsPlanKeys | cloudflare.php:75-80 | The record loop never removes a plan entry, wherever it stops. |
| RecordFacts.HostRecordsPlanFoundRecord | cloudflare.php:76-79 | Suppose an IPv4 address is known. Then an iteration that does not stop the run plans the record its A lookup finds, and the record its AAAA lookup finds when ipv6 is set. |
| RecordFacts.RecordLoopPlansFoundRecords | cloudflare.php:75-80 | Suppose an IPv4 address is known. Then a record loop that does not stop the run plans every record it finds. For each host with a name and a zoneId other than `""` and `"0"`, the id of the first A record found is a key of the final plan, and so is the id of the first AAAA record when ipv6 is set. |
| RecordFacts.SuccessfulLookupsNeverStop | cloudflare.php:206-210 | When every lookup succeeds and an IPv4 address is known, the record loop runs to its end. |
| RecordFacts.RecordLoopAbortsWithMessage | cloudflare.php:208-210 | Every bad-parameter stop of the record loop carries a non-empty message. |
| RecordFacts.NamelessHostSkipped | cloudflare.php:193-195 | Suppose an IPv4 address is known and the plan is empty. Then a host list holding only the host `""` is left as it is by the record loop, and makeUpdateDNS then reports `good`. |
| UpdateFacts.PatchRequests | cloudflare.php:92-96 | Proof vocabulary: one PATCH per plan entry, in the given order, each addressed to the entry's zone and record id. |
| UpdateFacts.SucceedingPrefix | cloudflare.php:92-102 | The number of PATCHes that succeed before the first failure is at most the number of entries. |
| UpdateFacts.SucceedingPrefixSpec | cloudflare.php:96-101 | Every PATCH before that point succeeds, and the one at that point, if any, fails. |
| UpdateFacts.Sent | cloudflare.php:92-102 | The loop sends at most one PATCH per entry. |
| UpdateFacts.PatchAllStops | cloudflare.php:98-101 | The PATCH loop stops the run with "Update Record failed" exactly when some PATCH fails. |
| UpdateFacts.PatchAllOnlyLogs | cloudflare.php:92-102 | The PATCH loop changes nothing but the request log; there is no rollback and no plan change. |
| UpdateFacts.PatchAllSends | cloudflare.php:92-102 | The PATCH loop sends the entries' PATCHes in plan order, with the body minus zoneId, up to and including the first failure and none after it. |
| UpdateFacts.PatchRequestsCons | cloudflare.php:92-96 | The PATCHes of a prefix are the first entry's PATCH followed by those of the rest. |
| UpdateFacts.MakeUpdateDnsSpec | cloudflare.php:86-105 | An empty host list gives "empty host list" with nothing sent. Otherwise the plan is PATCHed in key order, fail-fast, and the result is `good` exactly when every PATCH succeeded, else "Update Record failed". |
| UpdateFacts.AllPatchesSucceed | cloudflare.php:86-105 | When every PATCH succeeds, makeUpdateDNS on a non-empty host list sends the PATCH of every plan entry, in plan order, and reports `good`. |
| UpdateFacts.EveryPlannedRecordIsPatched | cloudflare.php:92-104 | When every PATCH succeeds, each plan entry's PATCH is among the requests sent and the run reports `good`. |
| UpdateFacts.EmptyPlanIsGood | cloudflare.php:92-104 | A non-empty host list with an empty plan is reported `good` and sends no PATCH. |
| UpdateFacts.PatchesTargetDistinctRecords | cloudflare.php:92-92 | No two PATCHes of a run target the same record id. |
| RunFacts.ZonesResolved | cloudflare.php:51-73 | The state after both address checks, the host list and setZones is well formed. |
| RunFacts.ConstructAfterZones | cloudflare.php:51-80 | Suppose both addresses are accepted and the zone listing succeeds. Then __construct continues with the record loop from a state with an empty plan and only the zone-list request sent. `ipv4` is set exactly when one of the two addresses is IPv4, and the host keys are the requested names. |
| RunFacts.ZonesResolvedHosts | cloudflare.php:60-73 | At that point the hosts are exactly the requested names, each resolved against the listed zones. |
| RunFacts.ConstructKeepsInvariant | cloudflare.php:41-81 | __construct ends in a state where every plan entry targets a resolved host with the updater's own address of its type and only listings and lookups were sent, however it ends. |
| RunFacts.RunRequestsWellFormed | cloudflare.php:9-10 | A run sends first the zone listing and lookups for resolved hosts, then only PATCHes, each updating a resolved host to the updater's own address of that record type. |
| RunFacts.MakeUpdateDnsSendsOwnAddresses | cloudflare.php:86-102 | makeUpdateDNS, after a record loop that kept the invariant, only appends PATCHes to the updater's own addresses. |
| RunFacts.PlannedPatchesOwnAddresses | cloudflare.php:92-96 | Every PATCH built from such a plan updates a resolved host to the updater's own address. |
| RunFacts.InvalidAddressStopsRun | cloudflare.php:51-58 | An address the filter rejects ends the run with "invalid ip-address" before any request. |
| RunFacts.ZoneListFailureStopsRun | cloudflare.php:145-155 | A failed zone listing ends the run after that one request, with no lookup and no PATCH. It gives `badauth` exactly for codes 9109 and 6003, otherwise the bad-parameter abort. |
| RunFacts.AbortMessagesPrintedVerbatim | cloudflare.php:107-111 | Every bad-parameter abort of a run carries a non-empty message, so badParam prints that message and never its `badparam` fallback. |
| RunFacts.NoIpv4AddressIsTypeError | cloudflare.php:75-76 | Suppose both addresses are public IPv6 and the zone listing succeeds. Then `ipv4` stays null, and the first call of setRecord ends the run with a type error after the zone listing. |
| RunFacts.NoZoneMatchEmptiesHostList | cloudflare.php:86-90 | Suppose both addresses are accepted, one of them is IPv4, and the zone listing succeeds. Suppose also that no zone matches any requested name, and no name is `""` or `"0"`. Then every host is removed, and the run stops with "empty host list" having sent only the zone listing. |
| RunFacts.EmptyHostArgumentReportsGood | cloudflare.php:60-80 | Suppose both addresses are accepted, one of them is IPv4, and the zone listing succeeds. Then an empty host argument yields the host `""`, which setRecord skips, and the run reports `good` having sent only the zone listing. |
| RunFacts.NothingFoundReportsGood | cloudflare.php:86-104 | Suppose both addresses are accepted, one of them is IPv4, the zone listing succeeds, and every lookup succeeds with no result. Suppose also that some requested name matches a zone whose id is neither `""` nor `"0"`. Then the run reports `good`, having sent only the zone listing and lookups, with no PATCH. |
| RunFacts.FoundRecordIsPatched | cloudflare.php:41-105 | Suppose both addresses are accepted, one of them is IPv4, the zone listing succeeds, and every lookup and every PATCH succeeds. Take a requested name whose host has a name other than `""` and `"0"`, a matched zone whose id is neither `""` nor `"0"`, and an A record found by its lookup. Then that record is PATCHed, and the run reports `good`. The same holds for its AAAA record when ipv6 is set. |

## Left out

- `callCFapi` (the curl transport, the headers and the JSON encoding and
  decoding) is not modelled. Each API answer is an input value, and each
  request is a log entry.
- `getIpAddressIpify` is not modelled. The address it fetches is an input
  of the run (`Env.discoveredIp`).
- `filter_var` with the private- and reserved-range flags is not
  modelled. The two tests are uninterpreted functions in `IpFilter`, so
  which addresses count as public is not modelled.
- `echo` and `exit()` are not modelled as process termination. A run ends
  in an `Outcome`, whose printed text is given by `BadParamText` and the
  `Output` token constants. The unused `Output` constants are not modelled.
- The `$argc` checks at the top of the script and in `__construct` are not
  modelled, and neither are the account and API-key arguments. They only
  reach the transport.
- The `$ip` field is not modelled, because no decision reads it.
- Malformed API answers are not modelled: a missing `success` or `result`,
  or a response that is not JSON. Every answer is assumed to be well
  formed. A missing error code is modelled as `None`.
- PHP's loose `==` on error codes is modelled as integer equality.
- PHP's conversion of numeric-string array keys to integers is not
  modelled. Host names and record ids are kept as strings.
- `strpos` follows PHP 8, where an empty zone name matches every host;
  PHP 7's warning and `false` for an empty needle is not modelled.
- Idempotence across runs (two runs against unchanged provider state give
  the same plan) is not modelled, because the provider's state
  is not modelled. Only answers are. For a fixed `Api` value, `Plan.Run`
  is a function, so repeating a run with the same answers gives the same
  outcome and the same requests.
