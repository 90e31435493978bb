/**
 * What setRecord and __construct's record loop promise: each branch of
 * setRecord, and what the loop keeps true or removes over all hosts.
 */
module RecordFacts {
  import opened Wrappers
  import opened Php
  import opened Cloudflare
  import opened Plan

  // ---------------------------------------------------------------------
  // setRecord

  /** A host with an empty full name is skipped: nothing changes and nothing is sent. */
  lemma SetRecordSkipsEmptyName(s: State, host: Host, ip: string, recordType: RecordType, api: Api)
    requires s.Valid() && IsEmptyString(host.fullname)
    ensures SetRecord(s, host, ip, recordType, api) == Step(s, None)
  {
  }

  /**
   * A host that no zone matched is removed from the host list; the plan is
   * unchanged and no lookup is sent.
   */
  lemma SetRecordDropsHostWithoutZone(s: State, host: Host, ip: string, recordType: RecordType, api: Api)
    requires s.Valid() && !IsEmptyString(host.fullname) && IsEmptyString(host.zoneId)
    ensures var r := SetRecord(s, host, ip, recordType, api);
            && r.exit == None
            && host.fullname !in r.state.hostList.entries
            && (forall k :: k in r.state.hostList.entries <==> k in s.hostList.entries && k != host.fullname)
            && r.state.plan == s.plan && r.state.calls == s.calls
  {
  }

  /** A failed lookup stops the run with the host named in the message; the plan is unchanged. */
  lemma SetRecordLookupFailureStops(s: State, host: Host, ip: string, recordType: RecordType, api: Api)
    requires s.Valid() && !IsEmptyString(host.fullname) && !IsEmptyString(host.zoneId)
    requires !api.lookup(host.zoneId, recordType, host.fullname).success
    ensures var r := SetRecord(s, host, ip, recordType, api);
            && r.exit == Some(BadParam("unsuccessful response for getRecord host: " + host.fullname))
            && r.state.calls == s.calls + [GetRecords(host.zoneId, recordType, host.fullname)]
            && r.state.plan == s.plan && r.state.hostList == s.hostList
  {
  }

  /**
   * A successful lookup: with no record found the plan is unchanged; else
   * exactly the entry under the first record's id is (re)written, with the
   * requested type, the host's name and zone, the given address, and the
   * record's ttl and proxied flag, and every other entry stays.
   */
  lemma SetRecordPlansFirstRecord(s: State, host: Host, ip: string, recordType: RecordType, api: Api)
    requires s.Valid() && !IsEmptyString(host.fullname) && !IsEmptyString(host.zoneId)
    requires api.lookup(host.zoneId, recordType, host.fullname).success
    ensures var found := api.lookup(host.zoneId, recordType, host.fullname).result;
            var r := SetRecord(s, host, ip, recordType, api);
            && r.exit == None
            && r.state.calls == s.calls + [GetRecords(host.zoneId, recordType, host.fullname)]
            && r.state.hostList == s.hostList
            && (|found| == 0 ==> r.state.plan == s.plan)
            && (|found| > 0 ==>
                  && found[0].id in r.state.plan.entries
                  && r.state.plan.entries[found[0].id]
                     == PlanEntry(recordType, host.fullname, ip, host.zoneId, found[0].ttl, found[0].proxied)
                  && (forall k :: k != found[0].id ==>
                        && (k in r.state.plan.entries <==> k in s.plan.entries)
                        && (k in s.plan.entries ==> r.state.plan.entries[k] == s.plan.entries[k])))
  {
  }

  /**
   * Two lookups that return the same record id leave one plan entry for it:
   * the later one's, at the place the earlier one gave it.
   */
  lemma SameRecordIdOverwrites(s: State, h1: Host, ip1: string, t1: RecordType,
                               h2: Host, ip2: string, t2: RecordType, api: Api)
    requires s.Valid()
    requires !IsEmptyString(h1.fullname) && !IsEmptyString(h1.zoneId)
    requires !IsEmptyString(h2.fullname) && !IsEmptyString(h2.zoneId)
    requires api.lookup(h1.zoneId, t1, h1.fullname).success && |api.lookup(h1.zoneId, t1, h1.fullname).result| > 0
    requires api.lookup(h2.zoneId, t2, h2.fullname).success && |api.lookup(h2.zoneId, t2, h2.fullname).result| > 0
    requires api.lookup(h1.zoneId, t1, h1.fullname).result[0].id == api.lookup(h2.zoneId, t2, h2.fullname).result[0].id
    ensures var id := api.lookup(h1.zoneId, t1, h1.fullname).result[0].id;
            var found := api.lookup(h2.zoneId, t2, h2.fullname).result[0];
            var r1 := SetRecord(s, h1, ip1, t1, api);
            var r2 := SetRecord(r1.state, h2, ip2, t2, api);
            && r2.exit == None
            && r2.state.plan.keys == r1.state.plan.keys
            && r2.state.plan.entries[id] == PlanEntry(t2, h2.fullname, ip2, h2.zoneId, found.ttl, found.proxied)
  {
  }

  // ---------------------------------------------------------------------
  // What the record loop keeps true

  /** A plan entry updates a resolved host to the updater's own address of the entry's type. */
  predicate TargetsOwnAddress(ipv4: Option<string>, ipv6: Option<string>, e: PlanEntry) {
    && (e.recordType == A ==> ipv4 == Some(e.content))
    && (e.recordType == AAAA ==> ipv6 == Some(e.content))
    && !IsEmptyString(e.name) && !IsEmptyString(e.zoneId)
  }

  /** A request __construct may send: the zone listing, or a lookup for a resolved host. */
  predicate IsConstructRequest(r: Request) {
    || r.ListZones?
    || (r.GetRecords? && !IsEmptyString(r.zoneId) && !IsEmptyString(r.name))
  }

  /** Every plan entry targets the updater's own addresses. */
  ghost predicate PlanTargetsOwnAddresses(s: State) {
    forall id :: id in s.plan.entries ==> TargetsOwnAddress(s.ipv4, s.ipv6, s.plan.entries[id])
  }

  /** Only listings and lookups for resolved hosts were sent. */
  ghost predicate OnlyConstructRequests(calls: seq<Request>) {
    forall i :: 0 <= i < |calls| ==> IsConstructRequest(calls[i])
  }

  ghost predicate RecordLoopInvariant(s: State) {
    PlanTargetsOwnAddresses(s) && OnlyConstructRequests(s.calls)
  }

  lemma SetRecordKeepsInvariant(s: State, host: Host, ip: string, recordType: RecordType, api: Api)
    requires s.Valid() && RecordLoopInvariant(s)
    requires recordType == A ==> s.ipv4 == Some(ip)
    requires recordType == AAAA ==> s.ipv6 == Some(ip)
    ensures RecordLoopInvariant(SetRecord(s, host, ip, recordType, api).state)
  {
    SetRecordKeepsTargets(s, host, ip, recordType, api);
    SetRecordKeepsRequests(s, host, ip, recordType, api);
  }

  lemma SetRecordKeepsTargets(s: State, host: Host, ip: string, recordType: RecordType, api: Api)
    requires s.Valid() && PlanTargetsOwnAddresses(s)
    requires recordType == A ==> s.ipv4 == Some(ip)
    requires recordType == AAAA ==> s.ipv6 == Some(ip)
    ensures PlanTargetsOwnAddresses(SetRecord(s, host, ip, recordType, api).state)
  {
    var r := SetRecord(s, host, ip, recordType, api);
    var json := api.lookup(host.zoneId, recordType, host.fullname);
    if !IsEmptyString(host.fullname) && !IsEmptyString(host.zoneId) && json.success && |json.result| > 0 {
      var found := json.result[0];
      var e := PlanEntry(recordType, host.fullname, ip, host.zoneId, found.ttl, found.proxied);
      assert r.state.plan.entries == s.plan.entries[found.id := e];
      assert TargetsOwnAddress(s.ipv4, s.ipv6, e);
    } else {
      assert r.state.plan == s.plan;
    }
  }

  lemma SetRecordKeepsRequests(s: State, host: Host, ip: string, recordType: RecordType, api: Api)
    requires s.Valid() && OnlyConstructRequests(s.calls)
    ensures OnlyConstructRequests(SetRecord(s, host, ip, recordType, api).state.calls)
  {
    var r := SetRecord(s, host, ip, recordType, api);
    if !IsEmptyString(host.fullname) && !IsEmptyString(host.zoneId) {
      assert r.state.calls == s.calls + [LookupRequest(host, recordType)];
    }
  }

  lemma SetHostRecordsKeepsInvariant(s: State, host: Host, api: Api)
    requires s.Valid() && RecordLoopInvariant(s)
    ensures RecordLoopInvariant(SetHostRecords(s, host, api).state)
  {
    if s.ipv4.Some? {
      var a := SetRecord(s, host, s.ipv4.value, A, api);
      SetRecordKeepsInvariant(s, host, s.ipv4.value, A, api);
      if a.exit.None? && Ipv6Enabled(s.ipv6) {
        SetRecordKeepsInvariant(a.state, host, s.ipv6.value, AAAA, api);
      }
    }
  }

  /** __construct's record loop keeps the invariant, whichever hosts it visits and wherever it stops. */
  lemma {:induction false} SetRecordsKeepsInvariant(s: State, hosts: seq<Host>, api: Api)
    requires s.Valid() && RecordLoopInvariant(s)
    ensures RecordLoopInvariant(SetRecords(s, hosts, api).state)
    decreases |hosts|
  {
    if hosts != [] {
      var st := SetHostRecords(s, hosts[0], api);
      SetHostRecordsKeepsInvariant(s, hosts[0], api);
      if st.exit.None? {
        SetRecordsKeepsInvariant(st.state, hosts[1..], api);
      }
    }
  }

  // ---------------------------------------------------------------------
  // Which hosts the record loop removes

  /** The full names of the given hosts. */
  function FullNames(hosts: seq<Host>): (names: set<string>)
    ensures forall i :: 0 <= i < |hosts| ==> hosts[i].fullname in names
    ensures forall k :: k in names ==> exists i :: 0 <= i < |hosts| && hosts[i].fullname == k
  {
    set i | 0 <= i < |hosts| :: hosts[i].fullname
  }

  /** The record loop over hosts that no zone matched removes each of them and sends nothing. */
  lemma {:induction false} UnresolvedHostsDropped(s: State, hosts: seq<Host>, api: Api)
    requires s.Valid() && s.ipv4.Some?
    requires forall i :: 0 <= i < |hosts| ==> !IsEmptyString(hosts[i].fullname) && IsEmptyString(hosts[i].zoneId)
    ensures var r := SetRecords(s, hosts, api);
            && r.exit == None && r.state.plan == s.plan && r.state.calls == s.calls
            && (forall k :: k in r.state.hostList.entries <==> k in s.hostList.entries && k !in FullNames(hosts))
    decreases |hosts|
  {
    if hosts != [] {
      var st := SetHostRecords(s, hosts[0], api);
      UnresolvedHostDropped(s, hosts[0], api);
      UnresolvedHostsDropped(st.state, hosts[1..], api);
      assert FullNames(hosts) == {hosts[0].fullname} + FullNames(hosts[1..]) by {
        assert forall i :: 0 < i < |hosts| ==> hosts[i] == hosts[1..][i - 1];
      }
    }
  }

  /** One iteration for a host no zone matched: its entry goes, nothing else changes. */
  lemma UnresolvedHostDropped(s: State, host: Host, api: Api)
    requires s.Valid() && s.ipv4.Some?
    requires !IsEmptyString(host.fullname) && IsEmptyString(host.zoneId)
    ensures var st := SetHostRecords(s, host, api);
            && st.exit == None && st.state.plan == s.plan && st.state.calls == s.calls
            && (forall k :: k in st.state.hostList.entries <==> k in s.hostList.entries && k != host.fullname)
  {
    var a := SetRecord(s, host, s.ipv4.value, A, api);
    assert a.state == s.(hostList := s.hostList.Unset(host.fullname));
    if Ipv6Enabled(s.ipv6) {
      assert SetRecord(a.state, host, s.ipv6.value, AAAA, api).state == a.state.(hostList := a.state.hostList.Unset(host.fullname));
    }
  }

  /** A host list of unresolved hosts, each keyed by its non-empty full name, is emptied by the record loop. */
  lemma UnresolvedListEmptied(s: State, api: Api)
    requires s.Valid() && s.ipv4.Some?
    requires forall k :: k in s.hostList.entries ==>
               && s.hostList.entries[k].fullname == k && !IsEmptyString(k)
               && IsEmptyString(s.hostList.entries[k].zoneId)
    ensures var r := SetRecords(s, HostsInOrder(s.hostList), api);
            && r.exit == None && r.state.hostList.keys == []
            && r.state.plan == s.plan && r.state.calls == s.calls
  {
    var hl := s.hostList;
    var hosts := HostsInOrder(hl);
    assert forall i :: 0 <= i < |hosts| ==> hl.keys[i] in hl.entries && hosts[i] == hl.entries[hl.keys[i]];
    UnresolvedHostsDropped(s, hosts, api);
    var r := SetRecords(s, hosts, api);
    forall k | k in hl.entries
      ensures k in FullNames(hosts)
    {
      var i :| 0 <= i < |hl.keys| && hl.keys[i] == k;
      assert hosts[i].fullname == k;
    }
    NoEntriesNoKeys(r.state.hostList);
  }

  lemma NoEntriesNoKeys<V>(a: PhpArray<V>)
    requires a.Valid()
    ensures (forall k :: k !in a.entries) ==> a.keys == []
  {
    assert a.keys == [] || a.keys[0] in a.entries;
  }

  /** The non-empty full names of the hosts that no zone matched. */
  function UnresolvedNames(hosts: seq<Host>): (names: set<string>)
    ensures forall i :: 0 <= i < |hosts| && !IsEmptyString(hosts[i].fullname) && IsEmptyString(hosts[i].zoneId)
              ==> hosts[i].fullname in names
    ensures forall k :: k in names ==>
              exists i :: 0 <= i < |hosts| && hosts[i].fullname == k && IsEmptyString(hosts[i].zoneId)
  {
    set i | 0 <= i < |hosts| && !IsEmptyString(hosts[i].fullname) && IsEmptyString(hosts[i].zoneId) :: hosts[i].fullname
  }

  /** The record loop removes no host but those that no zone matched. */
  lemma {:induction false} RecordLoopRemovesOnlyUnresolved(s: State, hosts: seq<Host>, api: Api)
    requires s.Valid()
    ensures var r := SetRecords(s, hosts, api);
            forall k :: k in s.hostList.entries && k !in UnresolvedNames(hosts) ==> k in r.state.hostList.entries
    decreases |hosts|
  {
    if hosts != [] {
      var st := SetHostRecords(s, hosts[0], api);
      HostRecordsRemoveOnlyUnresolved(s, hosts[0], api);
      if st.exit.None? {
        RecordLoopRemovesOnlyUnresolved(st.state, hosts[1..], api);
        assert forall i :: 0 < i < |hosts| ==> hosts[i] == hosts[1..][i - 1];
      }
    }
  }

  /** One iteration removes at most the entry of the host it visits, and only if no zone matched it. */
  lemma HostRecordsRemoveOnlyUnresolved(s: State, host: Host, api: Api)
    requires s.Valid()
    ensures var st := SetHostRecords(s, host, api);
            forall k :: k in s.hostList.entries && !(k == host.fullname && IsEmptyString(host.zoneId))
              ==> k in st.state.hostList.entries
  {
    if s.ipv4.Some? {
      var a := SetRecord(s, host, s.ipv4.value, A, api);
      assert forall k :: k in s.hostList.entries && !(k == host.fullname && IsEmptyString(host.zoneId))
               ==> k in a.state.hostList.entries;
    }
  }

  /** When every lookup succeeds without finding a record, the record loop plans nothing and never stops. */
  lemma {:induction false} NothingFoundPlansNothing(s: State, hosts: seq<Host>, api: Api)
    requires s.Valid() && s.ipv4.Some?
    requires forall z, t, n :: api.lookup(z, t, n) == LookupResponse(true, [])
    ensures SetRecords(s, hosts, api).exit == None
    ensures SetRecords(s, hosts, api).state.plan == s.plan
    decreases |hosts|
  {
    if hosts != [] {
      var st := SetHostRecords(s, hosts[0], api);
      assert st.exit == None && st.state.plan == s.plan;
      NothingFoundPlansNothing(st.state, hosts[1..], api);
    }
  }

  /** Whatever the provider answers, the record loop keeps every host that a zone matched. */
  lemma ResolvedHostStays(s: State, api: Api, name: string)
    requires s.Valid()
    requires name in s.hostList.entries && !IsEmptyString(s.hostList.entries[name].zoneId)
    requires forall k :: k in s.hostList.entries ==> s.hostList.entries[k].fullname == k
    ensures name in SetRecords(s, HostsInOrder(s.hostList), api).state.hostList.entries
  {
    var hl := s.hostList;
    var hosts := HostsInOrder(hl);
    forall i | 0 <= i < |hosts| && hosts[i].fullname == name
      ensures !IsEmptyString(hosts[i].zoneId)
    {
      assert hosts[i] == hl.entries[hl.keys[i]];
    }
    RecordLoopRemovesOnlyUnresolved(s, hosts, api);
  }

  /** When no lookup finds a record, the record loop keeps a resolved host and plans nothing. */
  lemma ResolvedHostKept(s: State, api: Api, name: string)
    requires s.Valid() && s.ipv4.Some?
    requires forall z, t, n :: api.lookup(z, t, n) == LookupResponse(true, [])
    requires name in s.hostList.entries && !IsEmptyString(s.hostList.entries[name].zoneId)
    requires forall k :: k in s.hostList.entries ==> s.hostList.entries[k].fullname == k
    ensures var r := SetRecords(s, HostsInOrder(s.hostList), api);
            && r.exit == None && r.state.plan == s.plan && |r.state.hostList.keys| > 0
  {
    NothingFoundPlansNothing(s, HostsInOrder(s.hostList), api);
    ResolvedHostStays(s, api, name);
    var r := SetRecords(s, HostsInOrder(s.hostList), api);
    assert name in r.state.hostList.keys;
  }

  // ---------------------------------------------------------------------
  // What the record loop plans

  /** setRecord never removes a plan entry: it writes one entry or none. */
  lemma SetRecordKeepsPlanKeys(s: State, host: Host, ip: string, recordType: RecordType, api: Api)
    requires s.Valid()
    ensures forall k :: k in s.plan.entries ==> k in SetRecord(s, host, ip, recordType, api).state.plan.entries
  {
  }

  /** Nor does one iteration of the record loop. */
  lemma SetHostRecordsKeepsPlanKeys(s: State, host: Host, api: Api)
    requires s.Valid()
    ensures forall k :: k in s.plan.entries ==> k in SetHostRecords(s, host, api).state.plan.entries
  {
    if s.ipv4.Some? {
      var a := SetRecord(s, host, s.ipv4.value, A, api);
      SetRecordKeepsPlanKeys(s, host, s.ipv4.value, A, api);
      if a.exit.None? && Ipv6Enabled(s.ipv6) {
        SetRecordKeepsPlanKeys(a.state, host, s.ipv6.value, AAAA, api);
      }
    }
  }

  /** Nor does the record loop, wherever it stops. */
  lemma {:induction false} SetRecordsKeepsPlanKeys(s: State, hosts: seq<Host>, api: Api)
    requires s.Valid()
    ensures forall k :: k in s.plan.entries ==> k in SetRecords(s, hosts, api).state.plan.entries
    decreases |hosts|
  {
    if hosts != [] {
      var st := SetHostRecords(s, hosts[0], api);
      SetHostRecordsKeepsPlanKeys(s, hosts[0], api);
      if st.exit.None? {
        SetRecordsKeepsPlanKeys(st.state, hosts[1..], api);
      }
    }
  }

  /** The lookup of a named host with a zone that finds a record: the record's id. */
  predicate FindsRecord(api: Api, host: Host, recordType: RecordType) {
    && !IsEmptyString(host.fullname) && !IsEmptyString(host.zoneId)
    && api.lookup(host.zoneId, recordType, host.fullname).success
    && |api.lookup(host.zoneId, recordType, host.fullname).result| > 0
  }

  function FoundId(api: Api, host: Host, recordType: RecordType): string
    requires FindsRecord(api, host, recordType)
  {
    api.lookup(host.zoneId, recordType, host.fullname).result[0].id
  }

  /**
   * One iteration that does not stop the run plans the record its A lookup
   * finds, and the one its AAAA lookup finds when ipv6 is set.
   */
  lemma HostRecordsPlanFoundRecord(s: State, host: Host, recordType: RecordType, api: Api)
    requires s.Valid() && s.ipv4.Some?
    requires recordType == AAAA ==> Ipv6Enabled(s.ipv6)
    requires FindsRecord(api, host, recordType)
    requires SetHostRecords(s, host, api).exit == None
    ensures FoundId(api, host, recordType) in SetHostRecords(s, host, api).state.plan.entries
  {
    var a := SetRecord(s, host, s.ipv4.value, A, api);
    if recordType == A {
      SetRecordPlansFirstRecord(s, host, s.ipv4.value, A, api);
      if Ipv6Enabled(s.ipv6) {
        SetRecordKeepsPlanKeys(a.state, host, s.ipv6.value, AAAA, api);
      }
    } else {
      SetRecordPlansFirstRecord(a.state, host, s.ipv6.value, AAAA, api);
    }
  }

  /**
   * A record loop that does not stop the run plans every record it finds:
   * the id of the A record of each named host with a zone, and of its AAAA
   * record when ipv6 is set, is a key of the final plan.
   */
  lemma {:induction false} RecordLoopPlansFoundRecords(s: State, hosts: seq<Host>, api: Api, i: int,
                                                      recordType: RecordType)
    requires s.Valid() && s.ipv4.Some?
    requires recordType == AAAA ==> Ipv6Enabled(s.ipv6)
    requires 0 <= i < |hosts| && FindsRecord(api, hosts[i], recordType)
    requires SetRecords(s, hosts, api).exit == None
    ensures FoundId(api, hosts[i], recordType) in SetRecords(s, hosts, api).state.plan.entries
    decreases |hosts|
  {
    var st := SetHostRecords(s, hosts[0], api);
    assert st.exit == None;
    if i == 0 {
      HostRecordsPlanFoundRecord(s, hosts[0], recordType, api);
      SetRecordsKeepsPlanKeys(st.state, hosts[1..], api);
    } else {
      assert hosts[1..][i - 1] == hosts[i];
      RecordLoopPlansFoundRecords(st.state, hosts[1..], api, i - 1, recordType);
    }
  }

  /** Every bad-parameter stop of the record loop carries a non-empty message. */
  lemma {:induction false} RecordLoopAbortsWithMessage(s: State, hosts: seq<Host>, api: Api)
    requires s.Valid()
    ensures var e := SetRecords(s, hosts, api).exit;
            e.Some? && e.value.BadParam? ==> |e.value.msg| > 0
    decreases |hosts|
  {
    if hosts != [] {
      var st := SetHostRecords(s, hosts[0], api);
      if st.exit.None? {
        RecordLoopAbortsWithMessage(st.state, hosts[1..], api);
      }
    }
  }

  /** When every lookup succeeds, the record loop runs to its end (given an IPv4 address). */
  lemma {:induction false} SuccessfulLookupsNeverStop(s: State, hosts: seq<Host>, api: Api)
    requires s.Valid() && s.ipv4.Some?
    requires forall z, t, n :: api.lookup(z, t, n).success
    ensures SetRecords(s, hosts, api).exit == None
    decreases |hosts|
  {
    if hosts != [] {
      var st := SetHostRecords(s, hosts[0], api);
      assert st.exit == None;
      SuccessfulLookupsNeverStop(st.state, hosts[1..], api);
    }
  }

  /** A host list holding only a host with an empty name: the loop skips it and nothing is planned. */
  lemma NamelessHostSkipped(s: State, api: Api)
    requires s.Valid() && s.ipv4.Some? && s.hostList.keys == [""] && s.hostList.entries[""].fullname == ""
    requires s.plan.keys == []
    ensures SetRecords(s, HostsInOrder(s.hostList), api) == Step(s, None)
    ensures MakeUpdateDns(s, api) == Final(s, Good)
  {
    var host := s.hostList.entries[""];
    assert HostsInOrder(s.hostList) == [host];
    assert SetHostRecords(s, host, api) == Step(s, None);
  }
}
