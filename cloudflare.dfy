/**
 * The data the updater handles: the Cloudflare API v4 responses it reads,
 * the requests it sends, the host and plan entries it keeps, and the ways
 * a run can end.
 */
module Cloudflare {
  import opened Wrappers

  datatype RecordType = A | AAAA

  /** One entry of the zone list: the zone's name and its identifier. */
  datatype Zone = Zone(name: string, id: string)

  /** One element of `errors` in a response; its `code` may be absent. */
  datatype ApiError = ApiError(code: Option<int>)

  /** The answer to GET client/v4/zones. */
  datatype ZoneListResponse = ZoneListResponse(success: bool, errors: seq<ApiError>, result: seq<Zone>)

  /** The fields of an existing DNS record the updater reads. */
  datatype DnsRecord = DnsRecord(id: string, ttl: int, proxied: bool)

  /** The answer to GET client/v4/zones/{zone}/dns_records?type=..&name=.. */
  datatype LookupResponse = LookupResponse(success: bool, result: seq<DnsRecord>)

  /** A requested host: its full name, and the zone's name and id once resolved ('' until then). */
  datatype Host = Host(hostname: string, fullname: string, zoneId: string)

  /** An entry of the update plan (dnsRecordIdList), stored under the record id. */
  datatype PlanEntry = PlanEntry(recordType: RecordType, name: string, content: string,
                                 zoneId: string, ttl: int, proxied: bool)

  /** The JSON body of a PATCH: a plan entry without its zoneId. */
  datatype PatchBody = PatchBody(recordType: RecordType, name: string, content: string,
                                 ttl: int, proxied: bool)

  /** A call to the API, as the updater issues it. */
  datatype Request =
    | ListZones
    | GetRecords(zoneId: string, recordType: RecordType, name: string)
    | PatchRecord(zoneId: string, recordId: string, body: PatchBody)

  /**
   * The provider, as data: the zone-list answer, the answer to each record
   * lookup, and whether each PATCH reports success.
   */
  datatype Api = Api(zoneList: ZoneListResponse,
                     lookup: (string, RecordType, string) -> LookupResponse,
                     patch: (string, string, PatchBody) -> bool)

  /**
   * filter_var with FILTER_VALIDATE_IP, NO_PRIV_RANGE and NO_RES_RANGE, for
   * the IPv6 and the IPv4 flag; which addresses are public is not modelled.
   */
  datatype IpFilter = IpFilter(isPublicV6: string -> bool, isPublicV4: string -> bool)

  /** How a run ends: the text the script prints before it stops. */
  datatype Outcome =
    | Good                 // "good"
    | BadAuth              // "badauth"
    | BadParam(msg: string) // badParam($msg)
    | UpdateFailed         // "Update Record failed"
    | TypeError            // setRecord() given a null IPv4 address

  /** What badParam() prints: its message, or 'badparam' when the message is empty. */
  function BadParamText(msg: string): (text: string)
    ensures |text| > 0
    ensures |msg| > 0 ==> text == msg
    ensures |msg| == 0 ==> text == "badparam"
  {
    if |msg| > 0 then msg else "badparam"
  }
}
