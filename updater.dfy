/** The record updater: the `UpdateDnsRecord` request that `main` builds from the located
    record and the caller's address. */
module Updater {
  import opened Wrappers
  import opened Cloudflare

  /** The update request for `record`: addressed by the record's zone and identifier, with
      the record's name, TTL and proxy flag carried over and A content holding `ip`. */
  function UpdateRequestFor(record: DnsRecord, ip: Ipv4Addr): (request: UpdateDnsRecord)
    ensures request.zone_identifier == record.zone_id && request.identifier == record.id
    ensures request.params.name == record.name
    ensures request.params.ttl == Some(record.ttl) && request.params.proxied == Some(record.proxied)
    ensures request.params.content == A(ip)
  {
    UpdateDnsRecord(
      zone_identifier := record.zone_id,
      identifier := record.id,
      params := UpdateDnsRecordParams(
        name := record.name,
        ttl := Some(record.ttl),
        proxied := Some(record.proxied),
        content := A(ip)))
  }

  /** The parameters that describe `record` as it stands, every optional field given. */
  function CurrentParams(record: DnsRecord): UpdateDnsRecordParams {
    UpdateDnsRecordParams(record.name, Some(record.ttl), Some(record.proxied), record.content)
  }

  /** What an update with `params` makes of `record` at the provider: every given field is
      written, and a field left as `None` takes the provider's default. */
  function ApplyUpdate(record: DnsRecord, params: UpdateDnsRecordParams, defaultTtl: U32, defaultProxied: bool): DnsRecord {
    record.(
      name := params.name,
      ttl := params.ttl.GetOr(defaultTtl),
      proxied := params.proxied.GetOr(defaultProxied),
      content := params.content)
  }

  /** The request differs from the record's current parameters in the content alone, and it
      changes nothing at all exactly when the record already holds `ip`. */
  lemma UpdateChangesOnlyContent(record: DnsRecord, ip: Ipv4Addr)
    ensures UpdateRequestFor(record, ip).params == CurrentParams(record).(content := A(ip))
    ensures UpdateRequestFor(record, ip).params == CurrentParams(record) <==> record.content == A(ip)
  {
  }

  /** Whatever the provider's defaults are, applying the request to the record it addresses
      leaves every field but the content as it was, and sets the content to `A(ip)`. */
  lemma UpdatePreservesRecord(record: DnsRecord, ip: Ipv4Addr, defaultTtl: U32, defaultProxied: bool)
    ensures ApplyUpdate(record, UpdateRequestFor(record, ip).params, defaultTtl, defaultProxied) == record.(content := A(ip))
  {
  }

  /** The request is the identity update for a record that already holds `ip`. */
  lemma UpdateIsIdempotent(record: DnsRecord, ip: Ipv4Addr, defaultTtl: U32, defaultProxied: bool)
    ensures
      var updated := ApplyUpdate(record, UpdateRequestFor(record, ip).params, defaultTtl, defaultProxied);
      UpdateRequestFor(updated, ip) == UpdateRequestFor(record, ip) &&
      ApplyUpdate(updated, UpdateRequestFor(updated, ip).params, defaultTtl, defaultProxied) == updated
  {
  }
}
