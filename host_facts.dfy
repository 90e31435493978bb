/**
 * What validateIp, the host list loop of __construct and setZones' loop
 * promise, stated about their Plan transitions.
 */
module HostFacts {
  import opened Wrappers
  import opened Php
  import opened Cloudflare
  import opened Zones
  import opened Plan

  // ---------------------------------------------------------------------
  // Addresses

  /** validateIp accepts the address. */
  predicate Accepted(filter: IpFilter, ip: string) {
    filter.isPublicV6(ip) || filter.isPublicV4(ip)
  }

  /**
   * Both addresses validated: the one given on the command line is checked
   * second, so it replaces a discovered address of the same family, and the
   * family of each decides which field it lands in.
   */
  lemma CallerAddressWins(s: State, discovered: string, given: string, filter: IpFilter)
    requires Accepted(filter, discovered) && Accepted(filter, given)
    ensures var v1 := ValidateIp(s, discovered, filter);
            var v2 := ValidateIp(v1.state, given, filter);
            && v1.exit == None && v2.exit == None
            && v2.state.hostList == s.hostList && v2.state.plan == s.plan && v2.state.calls == s.calls
            && (filter.isPublicV6(given) ==>
                  && v2.state.ipv6 == Some(given)
                  && v2.state.ipv4 == (if filter.isPublicV6(discovered) then s.ipv4 else Some(discovered)))
            && (!filter.isPublicV6(given) ==>
                  && v2.state.ipv4 == Some(given)
                  && v2.state.ipv6 == (if filter.isPublicV6(discovered) then Some(discovered) else s.ipv6))
  {
  }

  // ---------------------------------------------------------------------
  // The host list

  /**
   * The host list __construct builds: every requested name becomes a key
   * whose entry has that name as fullname and empty hostname and zoneId; a
   * repeated name collapses into one entry.
   */
  lemma {:induction false} BuildHostListSpec(hostList: PhpArray<Host>, names: seq<string>)
    requires hostList.Valid()
    ensures var r := BuildHostList(hostList, names);
            && (forall k :: k in r.entries <==> k in hostList.entries || k in names)
            && (forall k :: k in r.entries ==>
                  r.entries[k] == if k in names then NewHost(k) else hostList.entries[k])
    decreases |names|
  {
    if names != [] {
      var next := hostList.Set(names[0], NewHost(names[0]));
      BuildHostListSpec(next, names[1..]);
      assert forall k :: k in names <==> k == names[0] || k in names[1..];
    }
  }

  /** Building keeps the earlier keys, in order, ahead of the new ones, and adds at most one key per name. */
  lemma {:induction false} BuildHostListKeepsOrder(hostList: PhpArray<Host>, names: seq<string>)
    requires hostList.Valid()
    ensures var r := BuildHostList(hostList, names);
            && |hostList.keys| <= |r.keys| <= |hostList.keys| + |names|
            && r.keys[..|hostList.keys|] == hostList.keys
    decreases |names|
  {
    if names != [] {
      var next := hostList.Set(names[0], NewHost(names[0]));
      BuildHostListKeepsOrder(next, names[1..]);
      assert next.keys[..|hostList.keys|] == hostList.keys;
    }
  }

  /** A fresh host list is never empty, and its first key is the first requested name. */
  lemma FreshHostListStartsWithFirstName(names: seq<string>)
    requires |names| > 0
    ensures var r := BuildHostList(EmptyArray(), names);
            |r.keys| > 0 && r.keys[0] == names[0]
  {
    var next := EmptyArray<Host>().Set(names[0], NewHost(names[0]));
    assert next.keys == [names[0]];
    BuildHostListKeepsOrder(next, names[1..]);
  }

  // ---------------------------------------------------------------------
  // Zone resolution

  /**
   * setZones' loop visits each of the given keys once: a visited host gets
   * the id and name of the first zone that matches its full name (or stays
   * as it was), the others are untouched, and no key comes or goes.
   */
  lemma {:induction false} ResolveZonesSpec(hostList: PhpArray<Host>, zones: seq<Zone>, keys: seq<string>)
    requires hostList.Valid() && Distinct(keys)
    ensures var r := ResolveZones(hostList, zones, keys);
            && r.keys == hostList.keys
            && (forall k :: k in r.entries <==> k in hostList.entries)
            && (forall k :: k in hostList.entries ==>
                  r.entries[k] == if k in keys then ResolveHost(hostList.entries[k], zones) else hostList.entries[k])
    decreases |keys|
  {
    if keys != [] {
      var next := ResolveKey(hostList, zones, keys[0]);
      assert Distinct(keys[1..]) && keys[0] !in keys[1..] by {
        assert forall i :: 0 < i < |keys| ==> keys[i] != keys[0];
      }
      ResolveZonesSpec(next, zones, keys[1..]);
      assert forall k :: k in keys <==> k == keys[0] || k in keys[1..];
    }
  }

  /**
   * After a successful zone listing, each host holds the matching zone's id
   * and name, a host no zone matches keeps its empty zoneId, and the full
   * names and keys are those requested.
   */
  lemma ResolvedFreshHosts(names: seq<string>, zones: seq<Zone>)
    ensures var built := BuildHostList(EmptyArray(), names);
            var r := ResolveZones(built, zones, built.keys);
            && (forall k :: k in r.entries <==> k in names)
            && (forall k :: k in r.entries ==>
                  && r.entries[k].fullname == k
                  && match FirstMatch(zones, k)
                     case Some(z) => r.entries[k].zoneId == z.id && r.entries[k].hostname == z.name
                     case None => r.entries[k].zoneId == "" && r.entries[k].hostname == "")
  {
    var built := BuildHostList(EmptyArray(), names);
    BuildHostListSpec(EmptyArray(), names);
    ResolveZonesSpec(built, zones, built.keys);
  }
}
