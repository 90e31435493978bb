/**
 * What whole runs of the script promise: how each kind of failure ends
 * the run, which requests are sent, and what the PATCHes carry.
 */
module RunFacts {
  import opened Wrappers
  import opened Php
  import opened Cloudflare
  import opened Zones
  import opened Plan
  import opened HostFacts
  import opened RecordFacts
  import opened UpdateFacts

  // ---------------------------------------------------------------------
  // The steps of a run

  /** The state __construct reaches once both addresses are validated, the host list built and the zones listed. */
  ghost function ZonesResolved(env: Env, hostArg: string, argIp: string): (z: State)
    requires Accepted(env.filter, env.discoveredIp) && Accepted(env.filter, argIp)
    ensures z.Valid()
  {
    var v2 := ValidateIp(ValidateIp(Initial, env.discoveredIp, env.filter).state, argIp, env.filter).state;
    SetZones(v2.(hostList := BuildHostList(v2.hostList, Explode(HostSeparator, hostArg))), env.api).state
  }

  /**
   * With both addresses accepted and the zones listed, __construct goes on
   * to its record loop from a state holding the zone listing alone, an
   * empty plan and an ipv4 exactly when one of the addresses is IPv4.
   */
  lemma ConstructAfterZones(env: Env, hostArg: string, argIp: string)
    requires Accepted(env.filter, env.discoveredIp) && Accepted(env.filter, argIp)
    requires env.api.zoneList.success
    ensures var z := ZonesResolved(env, hostArg, argIp);
            && Construct(Initial, env, hostArg, argIp) == SetRecords(z, HostsInOrder(z.hostList), env.api)
            && z.plan == Initial.plan && z.calls == [ListZones]
            && (z.ipv4.Some? <==> !env.filter.isPublicV6(env.discoveredIp) || !env.filter.isPublicV6(argIp))
            && z.hostList.keys == BuildHostList(EmptyArray(), Explode(HostSeparator, hostArg)).keys
  {
    ExplodeNonEmpty(HostSeparator, hostArg);
  }

  /** The hosts of that state: one per requested name, each resolved against the listed zones. */
  lemma ZonesResolvedHosts(env: Env, hostArg: string, argIp: string)
    requires Accepted(env.filter, env.discoveredIp) && Accepted(env.filter, argIp)
    requires env.api.zoneList.success
    ensures var z := ZonesResolved(env, hostArg, argIp);
            && (forall k :: k in z.hostList.entries <==> k in Explode(HostSeparator, hostArg))
            && (forall k :: k in z.hostList.entries ==>
                  z.hostList.entries[k] == ResolveHost(NewHost(k), env.api.zoneList.result))
  {
    var names := Explode(HostSeparator, hostArg);
    var v2 := ValidateIp(ValidateIp(Initial, env.discoveredIp, env.filter).state, argIp, env.filter).state;
    var built := BuildHostList(v2.hostList, names);
    BuildHostListSpec(v2.hostList, names);
    ResolveZonesSpec(built, env.api.zoneList.result, built.keys);
  }

  /** __construct ends in a state that keeps the invariant, however it ends. */
  lemma ConstructKeepsInvariant(env: Env, hostArg: string, argIp: string)
    ensures RecordLoopInvariant(Construct(Initial, env, hostArg, argIp).state)
  {
    var v1 := ValidateIp(Initial, env.discoveredIp, env.filter);
    var v2 := ValidateIp(v1.state, argIp, env.filter);
    var names := Explode(HostSeparator, hostArg);
    if v1.exit.None? && v2.exit.None? && |names| > 0 {
      var built := v2.state.(hostList := BuildHostList(v2.state.hostList, names));
      var z := SetZones(built, env.api);
      assert RecordLoopInvariant(z.state) by {
        assert z.state.plan == EmptyArray() && z.state.calls == [ListZones];
      }
      if z.exit.None? {
        SetRecordsKeepsInvariant(z.state, HostsInOrder(z.state.hostList), env.api);
      }
    }
  }


  // ---------------------------------------------------------------------
  // Requests sent

  /** A PATCH updating a resolved host to the address of its record type the updater holds. */
  predicate IsOwnAddressPatch(s: State, r: Request) {
    && r.PatchRecord?
    && !IsEmptyString(r.zoneId) && !IsEmptyString(r.body.name)
    && (r.body.recordType == A ==> s.ipv4 == Some(r.body.content))
    && (r.body.recordType == AAAA ==> s.ipv6 == Some(r.body.content))
  }

  /**
   * What a run sends: first the zone listing and the lookups, each for a
   * resolved host, then PATCHes only, each updating a resolved host to the
   * address of its record type the updater holds at the end.
   */
  lemma RunRequestsWellFormed(env: Env, hostArg: string, argIp: string)
    ensures var c := Construct(Initial, env, hostArg, argIp);
            var f := Run(env, hostArg, argIp);
            && |c.state.calls| <= |f.state.calls|
            && f.state.calls[..|c.state.calls|] == c.state.calls
            && (forall i :: 0 <= i < |c.state.calls| ==> IsConstructRequest(c.state.calls[i]))
            && (forall i :: |c.state.calls| <= i < |f.state.calls| ==> IsOwnAddressPatch(f.state, f.state.calls[i]))
  {
    var c := Construct(Initial, env, hostArg, argIp);
    ConstructKeepsInvariant(env, hostArg, argIp);
    if c.exit.None? {
      MakeUpdateDnsSendsOwnAddresses(c.state, env.api);
    }
  }

  /** makeUpdateDNS after a loop that kept the invariant appends only PATCHes to the updater's own addresses. */
  lemma MakeUpdateDnsSendsOwnAddresses(s: State, api: Api)
    requires s.Valid() && RecordLoopInvariant(s)
    ensures var f := MakeUpdateDns(s, api);
            && f.state.ipv4 == s.ipv4 && f.state.ipv6 == s.ipv6
            && |s.calls| <= |f.state.calls|
            && f.state.calls[..|s.calls|] == s.calls
            && (forall i :: |s.calls| <= i < |f.state.calls| ==> IsOwnAddressPatch(f.state, f.state.calls[i]))
  {
    MakeUpdateDnsSpec(s, api);
    var f := MakeUpdateDns(s, api);
    if |s.hostList.keys| > 0 {
      var ps := PatchRequests(s.plan, s.plan.keys[..Sent(s.plan, s.plan.keys, api)]);
      assert f.state.calls == s.calls + ps;
      PlannedPatchesOwnAddresses(s, s.plan.keys[..Sent(s.plan, s.plan.keys, api)]);
      assert forall i :: |s.calls| <= i < |f.state.calls| ==> f.state.calls[i] == ps[i - |s.calls|];
    }
  }

  /** Every PATCH built from a plan that targets the updater's own addresses is an own-address PATCH. */
  lemma PlannedPatchesOwnAddresses(s: State, ids: seq<string>)
    requires PlanTargetsOwnAddresses(s)
    requires forall j :: 0 <= j < |ids| ==> ids[j] in s.plan.entries
    ensures forall j :: 0 <= j < |ids| ==> IsOwnAddressPatch(s, PatchRequests(s.plan, ids)[j])
  {
    forall j | 0 <= j < |ids|
      ensures IsOwnAddressPatch(s, PatchRequests(s.plan, ids)[j])
    {
      assert TargetsOwnAddress(s.ipv4, s.ipv6, s.plan.entries[ids[j]]);
    }
  }


  // ---------------------------------------------------------------------
  // How runs end

  /** An address the filter rejects ends the run before any request. */
  lemma InvalidAddressStopsRun(env: Env, hostArg: string, argIp: string)
    requires !Accepted(env.filter, env.discoveredIp) || !Accepted(env.filter, argIp)
    ensures Run(env, hostArg, argIp).outcome == BadParam("invalid ip-address")
    ensures Run(env, hostArg, argIp).state.calls == []
  {
  }

  /**
   * An unsuccessful zone listing ends the run after that one request:
   * "badauth" when the first error's code is 9109 or 6003, the bad-parameter
   * abort otherwise; no lookup and no PATCH is sent.
   */
  lemma ZoneListFailureStopsRun(env: Env, hostArg: string, argIp: string)
    requires Accepted(env.filter, env.discoveredIp) && Accepted(env.filter, argIp)
    requires !env.api.zoneList.success
    ensures var errors := env.api.zoneList.errors;
            var f := Run(env, hostArg, argIp);
            && f.state.calls == [ListZones]
            && (f.outcome == BadAuth <==> |errors| > 0 && errors[0].code.Some? && IsAuthErrorCode(errors[0].code.value))
            && (f.outcome != BadAuth ==> f.outcome == BadParam("getZone unsuccessful response"))
  {
    ExplodeNonEmpty(HostSeparator, hostArg);
  }

  /**
   * Every bad-parameter abort of a run carries a non-empty message, so
   * badParam prints that message and never its 'badparam' fallback.
   */
  lemma AbortMessagesPrintedVerbatim(env: Env, hostArg: string, argIp: string)
    ensures var o := Run(env, hostArg, argIp).outcome;
            o.BadParam? ==> BadParamText(o.msg) == o.msg
  {
    var v1 := ValidateIp(Initial, env.discoveredIp, env.filter);
    var v2 := ValidateIp(v1.state, argIp, env.filter);
    var names := Explode(HostSeparator, hostArg);
    if v1.exit.None? && v2.exit.None? && |names| > 0 {
      var built := v2.state.(hostList := BuildHostList(v2.state.hostList, names));
      var z := SetZones(built, env.api);
      if z.exit.None? {
        var c := SetRecords(z.state, HostsInOrder(z.state.hostList), env.api);
        RecordLoopAbortsWithMessage(z.state, HostsInOrder(z.state.hostList), env.api);
        if c.exit.None? {
          MakeUpdateDnsSpec(c.state, env.api);
        }
      }
    }
  }

  /**
   * With two IPv6 addresses ipv4 stays null, and passing it to setRecord
   * ends the run with a type error at the first host, after the zone listing.
   */
  lemma NoIpv4AddressIsTypeError(env: Env, hostArg: string, argIp: string)
    requires env.filter.isPublicV6(env.discoveredIp) && env.filter.isPublicV6(argIp)
    requires env.api.zoneList.success
    ensures Run(env, hostArg, argIp).outcome == TypeError
    ensures Run(env, hostArg, argIp).state.calls == [ListZones]
  {
    ConstructAfterZones(env, hostArg, argIp);
    ZonesResolvedHosts(env, hostArg, argIp);
    ExplodeNonEmpty(HostSeparator, hostArg);
    var z := ZonesResolved(env, hostArg, argIp);
    assert Explode(HostSeparator, hostArg)[0] in z.hostList.keys;
  }

  /**
   * When no listed zone matches any requested name, setRecord removes every
   * host, and makeUpdateDNS then stops with "empty host list" having sent
   * nothing but the zone listing.
   */
  lemma NoZoneMatchEmptiesHostList(env: Env, hostArg: string, argIp: string)
    requires Accepted(env.filter, env.discoveredIp) && Accepted(env.filter, argIp)
    requires !env.filter.isPublicV6(env.discoveredIp) || !env.filter.isPublicV6(argIp)
    requires env.api.zoneList.success
    requires forall i :: 0 <= i < |Explode(HostSeparator, hostArg)| ==>
               && !IsEmptyString(Explode(HostSeparator, hostArg)[i])
               && FirstMatch(env.api.zoneList.result, Explode(HostSeparator, hostArg)[i]).None?
    ensures Run(env, hostArg, argIp).outcome == BadParam("empty host list")
    ensures Run(env, hostArg, argIp).state.calls == [ListZones]
  {
    ConstructAfterZones(env, hostArg, argIp);
    ZonesResolvedHosts(env, hostArg, argIp);
    var z := ZonesResolved(env, hostArg, argIp);
    forall k | k in z.hostList.entries
      ensures && z.hostList.entries[k].fullname == k && !IsEmptyString(k)
              && IsEmptyString(z.hostList.entries[k].zoneId)
    {
      var i :| 0 <= i < |Explode(HostSeparator, hostArg)| && Explode(HostSeparator, hostArg)[i] == k;
    }
    UnresolvedListEmptied(z, env.api);
  }

  /**
   * An empty host argument yields one host with an empty name, which
   * setRecord skips: the run is reported good after the zone listing alone.
   */
  lemma EmptyHostArgumentReportsGood(env: Env, argIp: string)
    requires Accepted(env.filter, env.discoveredIp) && Accepted(env.filter, argIp)
    requires !env.filter.isPublicV6(env.discoveredIp) || !env.filter.isPublicV6(argIp)
    requires env.api.zoneList.success
    ensures Run(env, "", argIp).outcome == Good
    ensures Run(env, "", argIp).state.calls == [ListZones]
  {
    ConstructAfterZones(env, "", argIp);
    ZonesResolvedHosts(env, "", argIp);
    var z := ZonesResolved(env, "", argIp);
    assert Explode(HostSeparator, "") == [""];
    assert z.hostList.keys == [""];
    NamelessHostSkipped(z, env.api);
  }

  /**
   * A requested host that resolves to a zone, while no lookup finds a record: it stays
   * in the host list while the plan stays empty, and the run is reported
   * good with no PATCH sent.
   */
  lemma NothingFoundReportsGood(env: Env, hostArg: string, argIp: string)
    requires Accepted(env.filter, env.discoveredIp) && Accepted(env.filter, argIp)
    requires !env.filter.isPublicV6(env.discoveredIp) || !env.filter.isPublicV6(argIp)
    requires env.api.zoneList.success
    requires forall z, t, n :: env.api.lookup(z, t, n) == LookupResponse(true, [])
    requires exists i :: 0 <= i < |Explode(HostSeparator, hostArg)|
               && FirstMatch(env.api.zoneList.result, Explode(HostSeparator, hostArg)[i]).Some?
               && !IsEmptyString(FirstMatch(env.api.zoneList.result, Explode(HostSeparator, hostArg)[i]).value.id)
    ensures Run(env, hostArg, argIp).outcome == Good
    ensures OnlyConstructRequests(Run(env, hostArg, argIp).state.calls)
  {
    var names := Explode(HostSeparator, hostArg);
    var j :| 0 <= j < |names| && FirstMatch(env.api.zoneList.result, names[j]).Some?
             && !IsEmptyString(FirstMatch(env.api.zoneList.result, names[j]).value.id);
    var z := ZonesResolved(env, hostArg, argIp);
    var c := SetRecords(z, HostsInOrder(z.hostList), env.api);
    assert Construct(Initial, env, hostArg, argIp) == c && z.plan == Initial.plan && z.ipv4.Some? by {
      ConstructAfterZones(env, hostArg, argIp);
    }
    assert && names[j] in z.hostList.entries
           && !IsEmptyString(z.hostList.entries[names[j]].zoneId)
           && forall k :: k in z.hostList.entries ==> z.hostList.entries[k].fullname == k by {
      ZonesResolvedHosts(env, hostArg, argIp);
    }
    ResolvedHostKept(z, env.api, names[j]);
    EmptyPlanIsGood(c.state, env.api);
    assert Run(env, hostArg, argIp) == Final(c.state, Good);
    assert OnlyConstructRequests(c.state.calls) by {
      ConstructKeepsInvariant(env, hostArg, argIp);
    }
  }

  /**
   * When every lookup and every PATCH succeeds, a requested host that a zone
   * matches and whose A record (or, with ipv6 set, AAAA record) is found
   * gets that record PATCHed, and the run is reported good.
   */
  lemma FoundRecordIsPatched(env: Env, hostArg: string, argIp: string, name: string, recordType: RecordType)
    requires Accepted(env.filter, env.discoveredIp) && Accepted(env.filter, argIp)
    requires !env.filter.isPublicV6(env.discoveredIp) || !env.filter.isPublicV6(argIp)
    requires env.api.zoneList.success
    requires forall z, t, n :: env.api.lookup(z, t, n).success
    requires forall z, r, b :: env.api.patch(z, r, b)
    requires name in Explode(HostSeparator, hostArg)
    requires FindsRecord(env.api, ResolveHost(NewHost(name), env.api.zoneList.result), recordType)
    requires recordType == AAAA ==> Ipv6Enabled(ZonesResolved(env, hostArg, argIp).ipv6)
    ensures Run(env, hostArg, argIp).outcome == Good
    ensures exists r :: r in Run(env, hostArg, argIp).state.calls && r.PatchRecord?
                        && r.recordId == FoundId(env.api, ResolveHost(NewHost(name), env.api.zoneList.result), recordType)
  {
    var host := ResolveHost(NewHost(name), env.api.zoneList.result);
    var z := ZonesResolved(env, hostArg, argIp);
    var hosts := HostsInOrder(z.hostList);
    var c := SetRecords(z, hosts, env.api);
    assert Construct(Initial, env, hostArg, argIp) == c && z.ipv4.Some? by {
      ConstructAfterZones(env, hostArg, argIp);
    }
    assert && name in z.hostList.entries && z.hostList.entries[name] == host
           && forall k :: k in z.hostList.entries ==> z.hostList.entries[k].fullname == k by {
      ZonesResolvedHosts(env, hostArg, argIp);
    }
    var i :| 0 <= i < |z.hostList.keys| && z.hostList.keys[i] == name;
    assert hosts[i] == host;
    SuccessfulLookupsNeverStop(z, hosts, env.api);
    RecordLoopPlansFoundRecords(z, hosts, env.api, i, recordType);
    ResolvedHostStays(z, env.api, name);
    assert |c.state.hostList.keys| > 0;
    var id := FoundId(env.api, host, recordType);
    EveryPlannedRecordIsPatched(c.state, env.api, id);
    assert Run(env, hostArg, argIp) == MakeUpdateDns(c.state, env.api);
    assert PatchRequest(id, c.state.plan.entries[id]).recordId == id;
  }
}
