/**
 * The updater's run as pure state transitions: one function per method of
 * the updater class, each giving the state after the call and, when the
 * script stops there, the outcome it stops with.  These are the reference
 * definitions the class's methods are proved against.
 */
module Plan {
  import opened Wrappers
  import opened Php
  import opened Cloudflare
  import opened Zones

  /** The updater object's fields, plus the log of API requests issued so far. */
  datatype State = State(ipv4: Option<string>, ipv6: Option<string>,
                         hostList: PhpArray<Host>, plan: PhpArray<PlanEntry>,
                         calls: seq<Request>)
  {
    ghost predicate Valid() {
      hostList.Valid() && plan.Valid()
    }
  }

  /** The state after a call, and the outcome if the call ended the script. */
  datatype Step = Step(state: State, exit: Option<Outcome>)

  /** The state at the end of a run, and how it ended. */
  datatype Final = Final(state: State, outcome: Outcome)

  /** What a run is given besides its arguments: the discovered address, the filter, the provider. */
  datatype Env = Env(discoveredIp: string, filter: IpFilter, api: Api)

  /** The object before __construct: no addresses (ipv4 null, ipv6 false), empty arrays. */
  const Initial: State := State(None, None, EmptyArray(), EmptyArray(), [])

  const HostSeparator: string := "---"

  /** validateIp: an IPv6 address goes to ipv6, otherwise an IPv4 one to ipv4, else the run stops. */
  function ValidateIp(s: State, ip: string, filter: IpFilter): (r: Step)
    ensures r.state.hostList == s.hostList && r.state.plan == s.plan && r.state.calls == s.calls
    ensures r.exit.None? <==> filter.isPublicV6(ip) || filter.isPublicV4(ip)
    ensures r.exit.Some? ==> r == Step(s, Some(BadParam("invalid ip-address")))
    ensures filter.isPublicV6(ip) ==> r.state.ipv6 == Some(ip) && r.state.ipv4 == s.ipv4
    ensures !filter.isPublicV6(ip) && filter.isPublicV4(ip) ==> r.state.ipv4 == Some(ip) && r.state.ipv6 == s.ipv6
  {
    if filter.isPublicV6(ip) then Step(s.(ipv6 := Some(ip)), None)
    else if filter.isPublicV4(ip) then Step(s.(ipv4 := Some(ip)), None)
    else Step(s, Some(BadParam("invalid ip-address")))
  }

  /** The entry __construct stores for each requested name. */
  function NewHost(fullname: string): Host {
    Host("", fullname, "")
  }

  /** __construct's loop over the exploded names: $this->hostList[$value] = [...]. */
  function BuildHostList(hostList: PhpArray<Host>, names: seq<string>): (r: PhpArray<Host>)
    requires hostList.Valid()
    ensures r.Valid()
    decreases |names|
  {
    if names == [] then hostList
    else BuildHostList(hostList.Set(names[0], NewHost(names[0])), names[1..])
  }

  /** setZones: list the zones, stop on failure, else resolve every host. */
  function SetZones(s: State, api: Api): (r: Step)
    requires s.Valid()
    ensures r.state.Valid()
  {
    var s' := s.(calls := s.calls + [ListZones]);
    if !api.zoneList.success then Step(s', Some(ClassifyZoneFailure(api.zoneList.errors)))
    else Step(s'.(hostList := ResolveZones(s'.hostList, api.zoneList.result, s'.hostList.keys)), None)
  }

  /** The lookup setRecord sends for a host and record type. */
  function LookupRequest(host: Host, recordType: RecordType): Request {
    GetRecords(host.zoneId, recordType, host.fullname)
  }

  /** setRecord: find the host's existing record of the given type and plan its update. */
  function SetRecord(s: State, host: Host, ip: string, recordType: RecordType, api: Api): (r: Step)
    requires s.Valid()
    ensures r.state.Valid()
    ensures r.state.ipv4 == s.ipv4 && r.state.ipv6 == s.ipv6
  {
    if IsEmptyString(host.fullname) then Step(s, None)
    else if IsEmptyString(host.zoneId) then Step(s.(hostList := s.hostList.Unset(host.fullname)), None)
    else
      var s' := s.(calls := s.calls + [LookupRequest(host, recordType)]);
      var json := api.lookup(host.zoneId, recordType, host.fullname);
      if !json.success then
        Step(s', Some(BadParam("unsuccessful response for getRecord host: " + host.fullname)))
      else if |json.result| == 0 then Step(s', None)
      else
        var found := json.result[0];
        var entry := PlanEntry(recordType, host.fullname, ip, host.zoneId, found.ttl, found.proxied);
        Step(s'.(plan := s'.plan.Set(found.id, entry)), None)
  }

  /** `if ($this->ipv6)`: ipv6 holds a string PHP counts as true. */
  predicate Ipv6Enabled(ipv6: Option<string>) {
    ipv6.Some? && !IsEmptyString(ipv6.value)
  }

  /** The hosts of a host list, in its key order. */
  function HostsInOrder(hostList: PhpArray<Host>): (hosts: seq<Host>)
    requires hostList.Valid()
    ensures |hosts| == |hostList.keys|
    ensures forall i :: 0 <= i < |hosts| ==> hosts[i] == hostList.entries[hostList.keys[i]]
  {
    seq(|hostList.keys|, i requires 0 <= i < |hostList.keys| => hostList.entries[hostList.keys[i]])
  }

  /**
   * One iteration of __construct's record loop: the A record with ipv4 (a
   * null ipv4 cannot be passed to setRecord's string parameter), then the
   * AAAA record when ipv6 is set.
   */
  function SetHostRecords(s: State, host: Host, api: Api): (r: Step)
    requires s.Valid()
    ensures r.state.Valid()
    ensures r.state.ipv4 == s.ipv4 && r.state.ipv6 == s.ipv6
  {
    if s.ipv4.None? then Step(s, Some(TypeError))
    else
      var a := SetRecord(s, host, s.ipv4.value, A, api);
      if a.exit.Some? || !Ipv6Enabled(s.ipv6) then a
      else SetRecord(a.state, host, s.ipv6.value, AAAA, api)
  }

  /** __construct's record loop over the hosts, stopping when the script stops. */
  function SetRecords(s: State, hosts: seq<Host>, api: Api): (r: Step)
    requires s.Valid()
    ensures r.state.Valid()
    ensures r.state.ipv4 == s.ipv4 && r.state.ipv6 == s.ipv6
    decreases |hosts|
  {
    if hosts == [] then Step(s, None)
    else
      var st := SetHostRecords(s, hosts[0], api);
      if st.exit.Some? then st else SetRecords(st.state, hosts[1..], api)
  }

  /** __construct: both addresses, the host list, the zones, then the records. */
  function Construct(s: State, env: Env, hostArg: string, argIp: string): (r: Step)
    requires s.Valid()
    ensures r.state.Valid()
  {
    var v1 := ValidateIp(s, env.discoveredIp, env.filter);
    if v1.exit.Some? then v1
    else
      var v2 := ValidateIp(v1.state, argIp, env.filter);
      if v2.exit.Some? then v2
      else
        var names := Explode(HostSeparator, hostArg);
        if |names| == 0 then Step(v2.state, Some(BadParam("empty host list")))
        else
          var built := v2.state.(hostList := BuildHostList(v2.state.hostList, names));
          var z := SetZones(built, env.api);
          if z.exit.Some? then z
          else SetRecords(z.state, HostsInOrder(z.state.hostList), env.api)
  }

  /** The PATCH body: the plan entry without zoneId. */
  function Body(e: PlanEntry): PatchBody {
    PatchBody(e.recordType, e.name, e.content, e.ttl, e.proxied)
  }

  /** The PATCH makeUpdateDNS sends for a plan entry. */
  function PatchRequest(recordId: string, e: PlanEntry): Request {
    PatchRecord(e.zoneId, recordId, Body(e))
  }

  predicate PatchSucceeds(api: Api, recordId: string, e: PlanEntry) {
    api.patch(e.zoneId, recordId, Body(e))
  }

  /** makeUpdateDNS's loop over the given record ids, stopping at the first failed PATCH. */
  function PatchAll(s: State, ids: seq<string>, api: Api): Step
    requires forall k :: k in ids ==> k in s.plan.entries
    decreases |ids|
  {
    if ids == [] then Step(s, None)
    else
      var e := s.plan.entries[ids[0]];
      var s' := s.(calls := s.calls + [PatchRequest(ids[0], e)]);
      if !PatchSucceeds(api, ids[0], e) then Step(s', Some(UpdateFailed))
      else PatchAll(s', ids[1..], api)
  }

  /** makeUpdateDNS: refuse an empty host list, else PATCH every plan entry in order. */
  function MakeUpdateDns(s: State, api: Api): Final
    requires s.Valid()
  {
    if |s.hostList.keys| == 0 then Final(s, BadParam("empty host list"))
    else
      var p := PatchAll(s, s.plan.keys, api);
      if p.exit.Some? then Final(p.state, p.exit.value) else Final(p.state, Good)
  }

  /** The whole script: construct the updater, then makeUpdateDNS unless it already stopped. */
  function Run(env: Env, hostArg: string, argIp: string): Final {
    var c := Construct(Initial, env, hostArg, argIp);
    if c.exit.Some? then Final(c.state, c.exit.value) else MakeUpdateDns(c.state, env.api)
  }
}
