/**
 * Zone resolution: which zone of the provider's list a host belongs to
 * (isZonesContainFullname and the loop of setZones), and how a failed zone
 * listing is classified.
 */
module Zones {
  import opened Wrappers
  import opened Php
  import opened Cloudflare

  /** The PHP code's test: the zone's name occurs anywhere in the full name. */
  predicate Matches(fullname: string, zone: Zone) {
    Contains(fullname, zone.name)
  }

  /** The first zone, in provider order, whose name occurs in fullname. */
  function FirstMatch(zones: seq<Zone>, fullname: string): (r: Option<Zone>)
    ensures r.Some? ==> r.value in zones && Matches(fullname, r.value)
    ensures r.None? <==> forall i :: 0 <= i < |zones| ==> !Matches(fullname, zones[i])
  {
    if zones == [] then None
    else if Matches(fullname, zones[0]) then Some(zones[0])
    else FirstMatch(zones[1..], fullname)
  }

  /** The earliest matching zone is the one chosen; no later zone wins over it. */
  lemma {:induction false} FirstMatchIsFirst(zones: seq<Zone>, fullname: string, i: int)
    requires 0 <= i < |zones| && Matches(fullname, zones[i])
    requires forall j :: 0 <= j < i ==> !Matches(fullname, zones[j])
    ensures FirstMatch(zones, fullname) == Some(zones[i])
  {
    if i > 0 {
      FirstMatchIsFirst(zones[1..], fullname, i - 1);
    }
  }

  /** One iteration of setZones: copy the matching zone's id and name into the host. */
  function ResolveHost(host: Host, zones: seq<Zone>): (r: Host)
    ensures r.fullname == host.fullname
  {
    match FirstMatch(zones, host.fullname)
    case Some(z) => host.(zoneId := z.id, hostname := z.name)
    case None => host
  }

  /**
   * One iteration of setZones' loop: the host under key k, resolved.  When
   * no zone matches, this writes the entry back unchanged, which is the
   * array the PHP code leaves.  (The loop only visits keys that are present.)
   */
  function ResolveKey(hostList: PhpArray<Host>, zones: seq<Zone>, k: string): (r: PhpArray<Host>)
    requires hostList.Valid()
    ensures r.Valid() && r.keys == hostList.keys
  {
    if k !in hostList.entries then hostList
    else hostList.Set(k, ResolveHost(hostList.entries[k], zones))
  }

  /** setZones' loop over the given keys, in order. */
  function ResolveZones(hostList: PhpArray<Host>, zones: seq<Zone>, keys: seq<string>): (r: PhpArray<Host>)
    requires hostList.Valid()
    ensures r.Valid() && r.keys == hostList.keys
    decreases |keys|
  {
    if keys == [] then hostList
    else ResolveZones(ResolveKey(hostList, zones, keys[0]), zones, keys[1..])
  }

  /** Cloudflare's error codes for rejected credentials. */
  predicate IsAuthErrorCode(code: int) {
    code == 9109 || code == 6003
  }

  /** What an unsuccessful zone listing ends in. */
  function ClassifyZoneFailure(errors: seq<ApiError>): (o: Outcome)
    ensures o == BadAuth || o == BadParam("getZone unsuccessful response")
    ensures o == BadAuth <==> |errors| > 0 && errors[0].code.Some? && IsAuthErrorCode(errors[0].code.value)
  {
    if |errors| > 0 && errors[0].code.Some? && IsAuthErrorCode(errors[0].code.value) then BadAuth
    else BadParam("getZone unsuccessful response")
  }

  /**
   * The label-aligned suffix test a DNS zone boundary calls for: the full
   * name is the zone itself or ends in "." followed by the zone's name.
   */
  predicate IsLabelSuffix(zoneName: string, fullname: string) {
    || fullname == zoneName
    || (&& |zoneName| < |fullname|
        && fullname[|fullname| - |zoneName|..] == zoneName
        && fullname[|fullname| - |zoneName| - 1] == '.')
  }

  /** Every zone that owns a host by label alignment also passes the substring test. */
  lemma LabelSuffixMatches(zone: Zone, fullname: string)
    requires IsLabelSuffix(zone.name, fullname)
    ensures Matches(fullname, zone)
  {
    ContainsIffOccurs(fullname, zone.name);
    assert OccursAt(fullname, zone.name, |fullname| - |zone.name|);
  }

  /** So a host that some listed zone owns is never left without a zone. */
  lemma OwnedHostIsResolved(zones: seq<Zone>, fullname: string, i: int)
    requires 0 <= i < |zones| && IsLabelSuffix(zones[i].name, fullname)
    ensures FirstMatch(zones, fullname).Some?
  {
    LabelSuffixMatches(zones[i], fullname);
  }

  /** The substring test is looser than label alignment: "example.com" matches "notexample.com". */
  lemma SubstringMatchCrossesLabels()
    ensures Matches("notexample.com", Zone("example.com", "Z1"))
    ensures !IsLabelSuffix("example.com", "notexample.com")
  {
    var fullname := "notexample.com";
    assert fullname[2] == 't';
    assert fullname[3..] == "example.com";
    ContainsIffOccurs(fullname, "example.com");
    assert OccursAt(fullname, "example.com", 3);
  }

  /** ... and it matches a zone name that sits in the middle of another domain. */
  lemma SubstringMatchIgnoresPosition()
    ensures Matches("example.com.evil.com", Zone("example.com", "Z1"))
    ensures !IsLabelSuffix("example.com", "example.com.evil.com")
  {
    var fullname := "example.com.evil.com";
    assert fullname[9..][0] == 'o';
    assert StartsWith(fullname, "example.com");
  }

  /**
   * Provider order decides, not the length of the match: an earlier listed
   * parent zone wins over a later zone that owns the host more closely.
   */
  lemma ProviderOrderWins()
    ensures var zones := [Zone("example.com", "Z1"), Zone("vpn.example.com", "Z2")];
            && IsLabelSuffix(zones[1].name, "a.vpn.example.com")
            && FirstMatch(zones, "a.vpn.example.com") == Some(zones[0])
  {
    var zones := [Zone("example.com", "Z1"), Zone("vpn.example.com", "Z2")];
    assert IsLabelSuffix(zones[0].name, "a.vpn.example.com");
    LabelSuffixMatches(zones[0], "a.vpn.example.com");
    FirstMatchIsFirst(zones, "a.vpn.example.com", 0);
  }
}
