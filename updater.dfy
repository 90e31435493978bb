/**
 * The updateCFDDNS class: its fields, and its methods as loops and field
 * updates, each proved to end in the state its Plan transition gives.
 */
module Updater {
  import opened Wrappers
  import opened Php
  import opened Cloudflare
  import opened Zones
  import opened Plan

  class CfDdnsUpdater {
    var ipv4: Option<string>
    var ipv6: Option<string>
    var hostList: PhpArray<Host>
    var dnsRecordIdList: PhpArray<PlanEntry>
    /** The API requests issued so far (the calls made through callCFapi). */
    var calls: seq<Request>

    /** The fields as a Plan.State. */
    function Snapshot(): State
      reads this
    {
      State(ipv4, ipv6, hostList, dnsRecordIdList, calls)
    }

    ghost predicate Valid()
      reads this
    {
      Snapshot().Valid()
    }

    /** The fields' initial values: ipv4 null, ipv6 false, no hosts, empty plan. */
    constructor ()
      ensures Valid() && Snapshot() == Initial
    {
      ipv4 := None;
      ipv6 := None;
      hostList := EmptyArray();
      dnsRecordIdList := EmptyArray();
      calls := [];
    }

    /** The body of __construct: addresses, host list, zones, then one lookup per host and type. */
    method Construct(env: Env, hostArg: string, argIp: string) returns (exit: Option<Outcome>)
      requires Valid()
      modifies this
      ensures Valid()
      ensures Step(Snapshot(), exit) == Plan.Construct(old(Snapshot()), env, hostArg, argIp)
    {
      exit := ValidateIp(env.discoveredIp, env.filter);
      if exit.Some? {
        return;
      }
      exit := ValidateIp(argIp, env.filter);
      if exit.Some? {
        return;
      }
      var arHost := Explode(HostSeparator, hostArg);
      if |arHost| == 0 {
        exit := Some(BadParam("empty host list"));
        return;
      }
      AddHosts(arHost);
      exit := SetZones(env.api);
      if exit.Some? {
        return;
      }
      exit := SetHostsRecords(env.api);
    }

    /** __construct's loop over the exploded names: one fresh entry per name, keyed by it. */
    method AddHosts(names: seq<string>)
      requires hostList.Valid()
      modifies this`hostList
      ensures hostList == BuildHostList(old(hostList), names)
    {
      var i := 0;
      while i < |names|
        invariant 0 <= i <= |names|
        invariant hostList.Valid()
        invariant BuildHostList(hostList, names[i..]) == BuildHostList(old(hostList), names)
      {
        assert names[i..][1..] == names[i + 1..];
        hostList := hostList.Set(names[i], NewHost(names[i]));
        i := i + 1;
      }
      assert names[i..] == [];
    }

    /**
     * __construct's loop over (a copy of) the host list: the A record, then
     * the AAAA record when ipv6 is set, for each host in key order.
     */
    method SetHostsRecords(api: Api) returns (exit: Option<Outcome>)
      requires Valid()
      modifies this`hostList, this`dnsRecordIdList, this`calls
      ensures Valid()
      ensures Step(Snapshot(), exit) == Plan.SetRecords(old(Snapshot()), HostsInOrder(old(hostList)), api)
    {
      exit := None;
      var snapshot := hostList;
      ghost var hosts := HostsInOrder(snapshot);
      var j := 0;
      while j < |snapshot.keys|
        invariant 0 <= j <= |snapshot.keys|
        invariant Valid() && exit == None
        invariant Plan.SetRecords(Snapshot(), hosts[j..], api) == Plan.SetRecords(old(Snapshot()), hosts, api)
      {
        var arHostData := snapshot.entries[snapshot.keys[j]];
        assert hosts[j..][0] == arHostData;
        assert hosts[j..][1..] == hosts[j + 1..];
        exit := SetHostRecords(arHostData, api);
        if exit.Some? {
          return;
        }
        j := j + 1;
      }
      assert hosts[j..] == [];
    }

    /** One iteration of that loop: setRecord for A with ipv4, then for AAAA with ipv6 if set. */
    method SetHostRecords(arHost: Host, api: Api) returns (exit: Option<Outcome>)
      requires Valid()
      modifies this`hostList, this`dnsRecordIdList, this`calls
      ensures Valid()
      ensures Step(Snapshot(), exit) == Plan.SetHostRecords(old(Snapshot()), arHost, api)
    {
      if ipv4.None? {
        // setRecord's `string $ip` parameter rejects null
        exit := Some(TypeError);
        return;
      }
      exit := SetRecord(arHost, ipv4.value, A, api);
      if exit.Some? {
        return;
      }
      if Ipv6Enabled(ipv6) {
        exit := SetRecord(arHost, ipv6.value, AAAA, api);
      }
    }

    /** makeUpdateDNS: stop on an empty host list, else PATCH the plan in order, fail-fast. */
    method MakeUpdateDns(api: Api) returns (outcome: Outcome)
      requires Valid()
      modifies this`calls
      ensures Valid()
      ensures Final(Snapshot(), outcome) == Plan.MakeUpdateDns(old(Snapshot()), api)
    {
      if |hostList.keys| == 0 {
        outcome := BadParam("empty host list");
        return;
      }
      var ids := dnsRecordIdList.keys;
      var i := 0;
      while i < |ids|
        invariant 0 <= i <= |ids|
        invariant Snapshot() == old(Snapshot()).(calls := calls)
        invariant PatchAll(Snapshot(), ids[i..], api) == PatchAll(old(Snapshot()), ids, api)
      {
        assert ids[i..][0] == ids[i];
        assert ids[i..][1..] == ids[i + 1..];
        var recordId := ids[i];
        var dnsRecord := dnsRecordIdList.entries[recordId];
        var zoneId := dnsRecord.zoneId;
        var body := Body(dnsRecord);
        calls := calls + [PatchRecord(zoneId, recordId, body)];
        if !api.patch(zoneId, recordId, body) {
          outcome := UpdateFailed;
          return;
        }
        i := i + 1;
      }
      assert ids[i..] == [];
      outcome := Good;
    }

    /** validateIp: assign the address to the field of its family, or stop the run. */
    method ValidateIp(ip: string, filter: IpFilter) returns (exit: Option<Outcome>)
      modifies this`ipv4, this`ipv6
      ensures Step(Snapshot(), exit) == Plan.ValidateIp(old(Snapshot()), ip, filter)
    {
      exit := None;
      if filter.isPublicV6(ip) {
        ipv6 := Some(ip);
      } else if filter.isPublicV4(ip) {
        ipv4 := Some(ip);
      } else {
        exit := Some(BadParam("invalid ip-address"));
      }
    }

    /** setZones: list the zones, classify a failure, else resolve each host in key order. */
    method SetZones(api: Api) returns (exit: Option<Outcome>)
      requires Valid()
      modifies this`hostList, this`calls
      ensures Valid()
      ensures Step(Snapshot(), exit) == Plan.SetZones(old(Snapshot()), api)
    {
      calls := calls + [ListZones];
      var json := api.zoneList;
      exit := None;
      if !json.success {
        exit := Some(ClassifyZoneFailure(json.errors));
        assert Step(Snapshot(), exit) == Plan.SetZones(old(Snapshot()), api);
        return;
      }
      var arZones := json.result;
      ResolveHosts(arZones);
    }

    /** setZones' loop: give every host, in key order, the zone isZonesContainFullname finds. */
    method ResolveHosts(arZones: seq<Zone>)
      requires hostList.Valid()
      modifies this`hostList
      ensures hostList == ResolveZones(old(hostList), arZones, old(hostList.keys))
    {
      var keys := hostList.keys;
      var i := 0;
      while i < |keys|
        invariant 0 <= i <= |keys|
        invariant hostList.Valid() && hostList.keys == keys
        invariant ResolveZones(hostList, arZones, keys[i..]) == ResolveZones(old(hostList), arZones, keys)
      {
        assert keys[i..][1..] == keys[i + 1..];
        ResolveHostAt(arZones, keys[i]);
        i := i + 1;
      }
      assert keys[i..] == [];
    }

    /** One iteration of setZones' loop: copy the matching zone's id and name into the entry. */
    method ResolveHostAt(arZones: seq<Zone>, hostname: string)
      requires hostList.Valid() && hostname in hostList.entries
      modifies this`hostList
      ensures hostList == ResolveKey(old(hostList), arZones, hostname)
    {
      var arHost := hostList.entries[hostname];
      var res := IsZonesContainFullname(arZones, arHost.fullname);
      if res.Some? {
        hostList := hostList.Set(hostname, arHost.(zoneId := res.value.id, hostname := res.value.name));
      }
    }

    /** isZonesContainFullname: the first zone whose name occurs in fullname, if any. */
    static method IsZonesContainFullname(arZones: seq<Zone>, fullname: string) returns (res: Option<Zone>)
      ensures res == FirstMatch(arZones, fullname)
    {
      res := None;
      var i := 0;
      while i < |arZones|
        invariant 0 <= i <= |arZones|
        invariant forall j :: 0 <= j < i ==> !Matches(fullname, arZones[j])
      {
        if Contains(fullname, arZones[i].name) {
          res := Some(arZones[i]);
          break;
        }
        i := i + 1;
      }
      if res.Some? {
        FirstMatchIsFirst(arZones, fullname, i);
      }
    }

    /** setRecord: skip, drop the host, stop, or plan the update of the first record found. */
    method SetRecord(arHostData: Host, ip: string, recordType: RecordType, api: Api)
      returns (exit: Option<Outcome>)
      requires Valid()
      modifies this`hostList, this`dnsRecordIdList, this`calls
      ensures Valid()
      ensures Step(Snapshot(), exit) == Plan.SetRecord(old(Snapshot()), arHostData, ip, recordType, api)
    {
      exit := None;
      if IsEmptyString(arHostData.fullname) {
        return;
      }
      var fullname := arHostData.fullname;
      if IsEmptyString(arHostData.zoneId) {
        hostList := hostList.Unset(fullname);
        return;
      }
      var zoneId := arHostData.zoneId;
      calls := calls + [GetRecords(zoneId, recordType, fullname)];
      var json := api.lookup(zoneId, recordType, fullname);
      if !json.success {
        exit := Some(BadParam("unsuccessful response for getRecord host: " + fullname));
        return;
      }
      if |json.result| > 0 {
        var found := json.result[0];
        dnsRecordIdList := dnsRecordIdList.Set(found.id,
          PlanEntry(recordType, arHostData.fullname, ip, arHostData.zoneId, found.ttl, found.proxied));
      }
    }
  }

  /** The script: build the updater (which may stop the run), then makeUpdateDNS. */
  method Run(env: Env, hostArg: string, argIp: string) returns (outcome: Outcome, calls: seq<Request>)
    ensures outcome == Plan.Run(env, hostArg, argIp).outcome
    ensures calls == Plan.Run(env, hostArg, argIp).state.calls
  {
    var cf := new CfDdnsUpdater();
    var exit := cf.Construct(env, hostArg, argIp);
    if exit.Some? {
      return exit.value, cf.calls;
    }
    outcome := cf.MakeUpdateDns(env.api);
    calls := cf.calls;
  }
}
