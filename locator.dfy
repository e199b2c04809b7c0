/** The record locator: `find_dns_record_by_name` and the A-record test `is_a`. The list
    request itself is an input (`response`), so the model assumes nothing about which
    records the provider returns; the server-side name filter is not relied upon. */
module Locator {
  import opened Wrappers
  import opened Cloudflare

  /** `is_a`: the record's content is the A variant. */
  predicate IsA(record: DnsRecord) {
    match record.content
    case A(_) => true
    case _ => false
  }

  /** The selection test of the scan, in the order the source evaluates it. */
  predicate Eligible(record: DnsRecord, zoneId: string, name: string) {
    name == record.name && zoneId == record.zone_id && IsA(record)
  }

  /** `k` is the index of the first eligible record of `records`. */
  predicate FirstEligibleIndex(records: seq<DnsRecord>, zoneId: string, name: string, k: int) {
    0 <= k < |records| && Eligible(records[k], zoneId, name) &&
    forall j :: 0 <= j < k ==> !Eligible(records[j], zoneId, name)
  }

  /** The first eligible record in list order, or `None`. */
  function FirstEligible(records: seq<DnsRecord>, zoneId: string, name: string): (found: Option<DnsRecord>)
    ensures found.Some? ==> found.value in records && Eligible(found.value, zoneId, name)
    ensures found.None? ==> forall i :: 0 <= i < |records| ==> !Eligible(records[i], zoneId, name)
  {
    if records == [] then None
    else if Eligible(records[0], zoneId, name) then Some(records[0])
    else
      var rest := FirstEligible(records[1..], zoneId, name);
      assert forall i :: 1 <= i < |records| ==> records[i] == records[1..][i - 1];
      rest
  }

  /** What `find_dns_record_by_name` yields: the list request failed (the source panics),
      or it succeeded, with the envelope's errors (printed as a warning) and the record found. */
  datatype Lookup =
    | ListFailed(failure: ApiFailure)
    | Listed(warnings: seq<ApiError>, found: Option<DnsRecord>)

  /** The specification of the locator. */
  function Locate(zoneId: string, name: string, response: ApiResponse<seq<DnsRecord>>): Lookup {
    match response
    case Fail(f) => ListFailed(f)
    case Ok(s) => Listed(s.errors, FirstEligible(s.result, zoneId, name))
  }

  /** `find_dns_record_by_name`: scan the returned records in order and stop at the first
      one with the requested name and zone and A content. */
  method FindDnsRecordByName(zoneId: string, name: string, response: ApiResponse<seq<DnsRecord>>)
    returns (lookup: Lookup)
    ensures lookup == Locate(zoneId, name, response)
    ensures lookup.ListFailed? <==> response.Fail?
    ensures lookup.Listed? && lookup.found.Some? ==>
      exists k :: FirstEligibleIndex(response.success.result, zoneId, name, k) &&
        response.success.result[k] == lookup.found.value
    ensures lookup.Listed? && lookup.found.None? ==>
      forall i :: 0 <= i < |response.success.result| ==> !Eligible(response.success.result[i], zoneId, name)
  {
    match response {
      case Fail(f) =>
        return ListFailed(f);
      case Ok(success) =>
        for i := 0 to |success.result|
          invariant forall j :: 0 <= j < i ==> !Eligible(success.result[j], zoneId, name)
        {
          var record := success.result[i];
          if name == record.name && zoneId == record.zone_id && IsA(record) {
            FirstEligibleAt(success.result, zoneId, name, i);
            return Listed(success.errors, Some(record));
          }
        }
        return Listed(success.errors, None);
    }
  }

  /** The record at the first eligible index is the one selected. */
  lemma {:induction false} FirstEligibleAt(records: seq<DnsRecord>, zoneId: string, name: string, k: nat)
    requires FirstEligibleIndex(records, zoneId, name, k)
    ensures FirstEligible(records, zoneId, name) == Some(records[k])
  {
    if k > 0 {
      FirstEligibleAt(records[1..], zoneId, name, k - 1);
    }
  }

  /** Whatever is selected sits at the first eligible index. */
  lemma {:induction false} FirstEligibleIsFirst(records: seq<DnsRecord>, zoneId: string, name: string)
    requires FirstEligible(records, zoneId, name).Some?
    ensures exists k ::
              FirstEligibleIndex(records, zoneId, name, k) && records[k] == FirstEligible(records, zoneId, name).value
  {
    if !Eligible(records[0], zoneId, name) {
      FirstEligibleIsFirst(records[1..], zoneId, name);
      var k :| FirstEligibleIndex(records[1..], zoneId, name, k) &&
        records[1..][k] == FirstEligible(records[1..], zoneId, name).value;
      assert forall j :: 1 <= j < k + 1 ==> records[j] == records[1..][j - 1];
      assert FirstEligibleIndex(records, zoneId, name, k + 1);
    }
  }

  /** Nothing is found exactly when no record is eligible; in particular in an empty list. */
  lemma NoneIffNoEligible(records: seq<DnsRecord>, zoneId: string, name: string)
    ensures FirstEligible(records, zoneId, name).None? <==>
      forall i :: 0 <= i < |records| ==> !Eligible(records[i], zoneId, name)
    ensures records == [] ==> FirstEligible(records, zoneId, name).None?
  {
  }

  /** The scan short-circuits: once a prefix holds an eligible record, whatever follows it is
      ignored, and a prefix without one is skipped. */
  lemma {:induction false} FirstEligibleAppend(xs: seq<DnsRecord>, ys: seq<DnsRecord>, zoneId: string, name: string)
    ensures FirstEligible(xs + ys, zoneId, name) ==
      if FirstEligible(xs, zoneId, name).Some? then FirstEligible(xs, zoneId, name)
      else FirstEligible(ys, zoneId, name)
  {
    if xs == [] {
      assert xs + ys == ys;
    } else {
      assert (xs + ys)[0] == xs[0];
      assert (xs + ys)[1..] == xs[1..] + ys;
      FirstEligibleAppend(xs[1..], ys, zoneId, name);
    }
  }

  /** A record with the requested name and zone but content other than A (a CNAME, an AAAA,
      ...) is never selected: inserting it anywhere in the list changes nothing. */
  lemma NonARecordIsIgnored(xs: seq<DnsRecord>, r: DnsRecord, ys: seq<DnsRecord>, zoneId: string, name: string)
    requires !r.content.A?
    ensures FirstEligible(xs + [r] + ys, zoneId, name) == FirstEligible(xs + ys, zoneId, name)
    ensures FirstEligible(xs + [r] + ys, zoneId, name) != Some(r)
  {
    FirstEligibleAppend(xs, [r] + ys, zoneId, name);
    FirstEligibleAppend(xs, ys, zoneId, name);
    assert xs + [r] + ys == xs + ([r] + ys);
    assert ([r] + ys)[1..] == ys;
  }
}
