# flare-at: a verified model of the dynamic-DNS find-then-update step

flare-at is a small dynamic-DNS updater for Cloudflare. It takes a zone identifier,
a record name and an IPv4 address. It lists the zone's DNS records filtered by that
name, picks the first A record whose name and zone match, and sends one update
request. The request keeps the record's name, TTL and proxy flag and replaces its
content with the new address. The program panics if the list request fails, if no
record matches, or if the update request fails. A non-empty error list inside a
successful response is printed as a warning and does not change what happens next.

The model has four modules plus `Wrappers` (Rust's `Option`):

- `Cloudflare` (`cloudflare.dfy`): the client's data. `DnsRecord`, the `DnsContent`
  variants, the response envelope (`ApiResponse` = `Ok(ApiSuccess)` | `Fail(ApiFailure)`)
  and the two request types. The client is not code here. Each of its answers is a
  value passed in as a parameter, and the list response may hold any records at all.
- `Locator` (`locator.dfy`): `is_a` (`IsA`), the selection test (`Eligible`), and
  `find_dns_record_by_name`. The function is modelled twice. `FindDnsRecordByName` is a
  method with the source's early-returning loop. `FirstEligible` is a recursive function
  that specifies it. A failed list request becomes `Lookup.ListFailed` instead of a panic.
- `Updater` (`updater.dfy`): the `UpdateDnsRecord` request that `main` builds from the
  located record. `ApplyUpdate` reads the request's parameters as the provider applies
  them: a given field is written, and a `None` field takes a provider default, passed
  in as a parameter. It serves as an independent statement of "only the content changes".
- `Ddns` (`ddns.dfy`): `main` after argument parsing and client construction, as the
  pure function `Execute`. A `Run` records the requests issued, the warnings printed and
  the `Outcome`. The outcome is `Updated` (exit status 0), `RecordNotFound`,
  `ListRequestFailed` or `UpdateRequestFailed`; the last three are the source's panics.

## Model

| member | source | states |
|---|---|---|
| `Locator.FirstEligible` | src/main.rs:94-99 | A selected record is in the list and has the requested name, the requested zone and A content; `None` means no record in the list has all three |
| `Locator.FindDnsRecordByName` | src/main.rs:75-104 | The loop with early return computes `Locate`: a list failure gives `ListFailed`; otherwise the envelope's errors and the record at the first eligible index, or `None` when no record is eligible |
| `Locator.FirstEligibleAt` | src/main.rs:94-97 | If index k holds an eligible record and no earlier index does, the record at k is the one selected |
| `Locator.FirstEligibleIsFirst` | src/main.rs:94-97 | Any selected record sits at the first eligible index of the list |
| `Locator.NoneIffNoEligible` | src/main.rs:94-99 | Nothing is selected exactly when no record is eligible; an empty list selects nothing |
| `Locator.FirstEligibleAppend` | src/main.rs:94-98 | The scan stops at its first match: once a prefix holds an eligible record, the records after it are ignored, even other eligible records with different content; a prefix without one is skipped |
| `Locator.NonARecordIsIgnored` | src/main.rs:106-113 | A record whose content is not A (CNAME, AAAA, ...) is never selected, even with matching name and zone; inserting it anywhere leaves the selection unchanged |
| `Updater.UpdateRequestFor` | src/main.rs:45-53 | The update is addressed by the record's zone_id and id; name, `Some(ttl)` and `Some(proxied)` come from the record; the content is `A(ip)` |
| `Updater.UpdateChangesOnlyContent` | src/main.rs:48-53 | The request's parameters equal the record's current parameters except for the content, and they equal them entirely exactly when the record already holds `A(ip)` |
| `Updater.UpdatePreservesRecord` | src/main.rs:48-53 | Whatever the provider's defaults for omitted TTL and proxy flag, applying the request changes the record's content to `A(ip)` and nothing else |
| `Updater.UpdateIsIdempotent` | src/main.rs:45-53 | After the update is applied, the same request built again is identical, and applying it again changes nothing |
| `Ddns.Execute` | src/main.rs:44-72 | The list request is always issued first, for the requested zone and name. An update is issued exactly when the run ends as `Updated` or `UpdateRequestFailed`. That update targets the requested zone and name with content `A(ip)`. Success carries the record from the update response |
| `Ddns.NotFoundIff` | src/main.rs:70-71 | The run ends as not-found exactly when the list request succeeded and no returned record is eligible; no update request is then issued |
| `Ddns.ListFailureIsFatal` | src/main.rs:102 | A failed list request ends the run as a list failure, not as not-found, with only the list request issued and no warning |
| `Ddns.UpdatesFirstEligible` | src/main.rs:44-69 | When index k is the first eligible record, the update request is the one built from that record, and the outcome is the update failure or success that the update response gives |
| `Ddns.IssuedUpdateTargetsFirstEligible` | src/main.rs:44-53 | Any update issued is the request built from the first eligible returned record |
| `Ddns.SuccessIff` | src/main.rs:44-72 | The run succeeds exactly when the list request succeeds, some returned record is eligible and the update request succeeds |
| `Ddns.WarningsDoNotChangeControlFlow` | src/main.rs:55-66 | Changing the error lists inside successful list and update envelopes changes neither the requests issued nor the outcome |
| `Ddns.WarningsComeFromEnvelopes` | src/main.rs:55-61 | The warnings printed are exactly the non-empty error list of the successful list envelope, followed by that of the successful update envelope when an update was issued; an update warning never appears without an issued update |
| `Ddns.SingleARecordIsUpdated` | src/main.rs:44-66 | For a zone with one A record `home.example.com` (TTL 300, not proxied) and address 5.6.7.8, the update carries TTL 300, not proxied, and `A(5.6.7.8)`, and the run succeeds even when the update envelope holds errors |
| `Ddns.CnameOnlyIsNotFound` | src/main.rs:70-71 | A zone that has only a CNAME under the name ends as not-found, with no update request |
| `Ddns.UnauthorisedListIsFatal` | src/main.rs:102 | A list request rejected with status 401 ends as a list failure before any update |

## Left out

- Command-line parsing (`structopt`) and the dotted-decimal parsing of the address (src/main.rs:14-33). They are library behaviour. `Opts` holds already-parsed values.
- Client construction and its failure (src/main.rs:35-42). They are credentials and HTTP setup. The run starts with a working client, so the state "client construction failed" is not modelled.
- The HTTP requests themselves (src/main.rs:45, 80-86). They are network I/O. Their responses are parameters of `Execute` and `FindDnsRecordByName`. The update response is what the provider would answer to the issued update.
- Printing with `eprint!`/`print!` and `{:?}`/`{:#}` formatting. A warning is modelled as the error list it would print, and a panic as an `Outcome` variant. Process termination itself is not modelled.
- The server-side name filter (src/main.rs:82-85) is recorded in the list request but not relied on. The list response may contain any records.
- The `DnsRecord` fields that the program reads only to print them in the success message (`meta`, `locked`, `proxiable`, `zone_name`, `created_on`, `modified_on`), and the envelope's `result_info` and `messages`.
- `ApplyUpdate` is not code of the repository. It states how the provider is taken to apply an update's parameters, so that field preservation can be stated separately from how the request is built.
