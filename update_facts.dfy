/**
 * What makeUpdateDNS promises, against an independent description of
 * its loop: the PATCHes that succeed from the front, and the first that fails.
 */
module UpdateFacts {
  import opened Wrappers
  import opened Php
  import opened Cloudflare
  import opened Plan

  /** The PATCH requests for the given plan entries, in the given order. */
  function PatchRequests(plan: PhpArray<PlanEntry>, ids: seq<string>): (rs: seq<Request>)
    requires forall j :: 0 <= j < |ids| ==> ids[j] in plan.entries
    ensures |rs| == |ids|
    ensures forall j :: 0 <= j < |ids| ==> rs[j] == PatchRequest(ids[j], plan.entries[ids[j]])
  {
    seq(|ids|, j requires 0 <= j < |ids| => PatchRequest(ids[j], plan.entries[ids[j]]))
  }

  /** How many of the given entries, from the front, are PATCHed successfully before the first failure. */
  function SucceedingPrefix(plan: PhpArray<PlanEntry>, ids: seq<string>, api: Api): (n: nat)
    requires forall j :: 0 <= j < |ids| ==> ids[j] in plan.entries
    ensures n <= |ids|
    decreases |ids|
  {
    if ids == [] then 0
    else if !PatchSucceeds(api, ids[0], plan.entries[ids[0]]) then 0
    else 1 + SucceedingPrefix(plan, ids[1..], api)
  }

  /** The PATCHes before the prefix's end all succeed, and the one at its end, if any, fails. */
  lemma {:induction false} SucceedingPrefixSpec(plan: PhpArray<PlanEntry>, ids: seq<string>, api: Api)
    requires forall j :: 0 <= j < |ids| ==> ids[j] in plan.entries
    ensures var n := SucceedingPrefix(plan, ids, api);
            && (forall j :: 0 <= j < n ==> PatchSucceeds(api, ids[j], plan.entries[ids[j]]))
            && (n < |ids| ==> !PatchSucceeds(api, ids[n], plan.entries[ids[n]]))
    decreases |ids|
  {
    if ids != [] && PatchSucceeds(api, ids[0], plan.entries[ids[0]]) {
      SucceedingPrefixSpec(plan, ids[1..], api);
      var n := SucceedingPrefix(plan, ids, api);
      assert forall j :: 0 < j < n ==> ids[j] == ids[1..][j - 1];
    }
  }

  /** How many PATCHes the loop sends: the successful ones and the first failed one, if any. */
  function Sent(plan: PhpArray<PlanEntry>, ids: seq<string>, api: Api): (m: nat)
    requires forall j :: 0 <= j < |ids| ==> ids[j] in plan.entries
    ensures m <= |ids|
  {
    var n := SucceedingPrefix(plan, ids, api);
    if n < |ids| then n + 1 else n
  }

  /** makeUpdateDNS's loop stops the run with "update failed" exactly when one of the PATCHes fails. */
  lemma {:induction false} PatchAllStops(s: State, ids: seq<string>, api: Api)
    requires forall j :: 0 <= j < |ids| ==> ids[j] in s.plan.entries
    ensures PatchAll(s, ids, api).exit
            == if SucceedingPrefix(s.plan, ids, api) < |ids| then Some(UpdateFailed) else None
    decreases |ids|
  {
    if ids != [] {
      var s' := s.(calls := s.calls + [PatchRequest(ids[0], s.plan.entries[ids[0]])]);
      if PatchSucceeds(api, ids[0], s.plan.entries[ids[0]]) {
        PatchAllStops(s', ids[1..], api);
      }
    }
  }

  /** makeUpdateDNS's loop changes nothing but the request log. */
  lemma {:induction false} PatchAllOnlyLogs(s: State, ids: seq<string>, api: Api)
    requires forall j :: 0 <= j < |ids| ==> ids[j] in s.plan.entries
    ensures PatchAll(s, ids, api).state == s.(calls := PatchAll(s, ids, api).state.calls)
    decreases |ids|
  {
    if ids != [] {
      var s' := s.(calls := s.calls + [PatchRequest(ids[0], s.plan.entries[ids[0]])]);
      if PatchSucceeds(api, ids[0], s.plan.entries[ids[0]]) {
        PatchAllOnlyLogs(s', ids[1..], api);
      }
    }
  }

  /**
   * makeUpdateDNS's loop sends the PATCHes in the given order up to and
   * including the first that fails, and no later one.
   */
  lemma {:induction false} PatchAllSends(s: State, ids: seq<string>, api: Api)
    requires forall j :: 0 <= j < |ids| ==> ids[j] in s.plan.entries
    ensures PatchAll(s, ids, api).state.calls == s.calls + PatchRequests(s.plan, ids[..Sent(s.plan, ids, api)])
    decreases |ids|
  {
    if ids != [] {
      var e := s.plan.entries[ids[0]];
      var s' := s.(calls := s.calls + [PatchRequest(ids[0], e)]);
      if PatchSucceeds(api, ids[0], e) {
        PatchAllSends(s', ids[1..], api);
        var m := Sent(s.plan, ids[1..], api);
        assert Sent(s.plan, ids, api) == m + 1;
        PatchRequestsCons(s.plan, ids, m);
      } else {
        assert PatchRequests(s.plan, ids[..1]) == [PatchRequest(ids[0], e)];
      }
    }
  }

  lemma PatchRequestsCons(plan: PhpArray<PlanEntry>, ids: seq<string>, m: nat)
    requires forall j :: 0 <= j < |ids| ==> ids[j] in plan.entries
    requires m < |ids|
    ensures PatchRequests(plan, ids[..m + 1])
            == [PatchRequest(ids[0], plan.entries[ids[0]])] + PatchRequests(plan, ids[1..][..m])
  {
    assert ids[..m + 1][1..] == ids[1..][..m];
  }

  /**
   * makeUpdateDNS: an empty host list stops with "empty host list" and sends
   * nothing; otherwise the plan is PATCHed in its key order, fail-fast, and
   * the run is good exactly when every PATCH succeeded.
   */
  lemma MakeUpdateDnsSpec(s: State, api: Api)
    requires s.Valid()
    ensures var f := MakeUpdateDns(s, api);
            && (|s.hostList.keys| == 0 ==> f == Final(s, BadParam("empty host list")))
            && (|s.hostList.keys| > 0 ==>
                  && f.state == s.(calls := s.calls + PatchRequests(s.plan, s.plan.keys[..Sent(s.plan, s.plan.keys, api)]))
                  && (f.outcome == Good <==> SucceedingPrefix(s.plan, s.plan.keys, api) == |s.plan.keys|)
                  && (f.outcome != Good ==> f.outcome == UpdateFailed))
  {
    if |s.hostList.keys| > 0 {
      PatchAllStops(s, s.plan.keys, api);
      PatchAllOnlyLogs(s, s.plan.keys, api);
      PatchAllSends(s, s.plan.keys, api);
    }
  }

  /** When every PATCH succeeds, makeUpdateDNS on a non-empty host list sends the whole plan in order and reports good. */
  lemma AllPatchesSucceed(s: State, api: Api)
    requires s.Valid() && |s.hostList.keys| > 0
    requires forall z, r, b :: api.patch(z, r, b)
    ensures var f := MakeUpdateDns(s, api);
            && f.outcome == Good
            && f.state.calls == s.calls + PatchRequests(s.plan, s.plan.keys)
  {
    MakeUpdateDnsSpec(s, api);
    SucceedingPrefixSpec(s.plan, s.plan.keys, api);
    assert s.plan.keys[..|s.plan.keys|] == s.plan.keys;
  }

  /** ... so every record of the plan gets its PATCH. */
  lemma EveryPlannedRecordIsPatched(s: State, api: Api, id: string)
    requires s.Valid() && |s.hostList.keys| > 0
    requires forall z, r, b :: api.patch(z, r, b)
    requires id in s.plan.entries
    ensures MakeUpdateDns(s, api).outcome == Good
    ensures PatchRequest(id, s.plan.entries[id]) in MakeUpdateDns(s, api).state.calls
  {
    AllPatchesSucceed(s, api);
    var j :| 0 <= j < |s.plan.keys| && s.plan.keys[j] == id;
    var rs := PatchRequests(s.plan, s.plan.keys);
    assert rs[j] == PatchRequest(id, s.plan.entries[id]);
    assert (s.calls + rs)[|s.calls| + j] == rs[j];
  }

  /** Nothing planned on a non-empty host list: the run is reported good with no PATCH. */
  lemma EmptyPlanIsGood(s: State, api: Api)
    requires s.Valid() && |s.hostList.keys| > 0 && |s.plan.keys| == 0
    ensures MakeUpdateDns(s, api) == Final(s, Good)
  {
  }

  /** No two PATCHes of a run target the same record: the plan has one entry per record id. */
  lemma PatchesTargetDistinctRecords(plan: PhpArray<PlanEntry>, m: nat)
    requires plan.Valid() && m <= |plan.keys|
    ensures var rs := PatchRequests(plan, plan.keys[..m]);
            forall i, j :: 0 <= i < j < |rs| ==> rs[i].recordId != rs[j].recordId
  {
  }
}
