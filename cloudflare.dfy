/** Rust's `Option`, as the program uses it for "record found / not found" and for the
    optional fields of an update request. */
module Wrappers {
  datatype Option<+T> = None | Some(value: T) {
    function GetOr(default: T): T {
      match this
      case Some(v) => v
      case None => default
    }
  }
}

/** The data the Cloudflare API client exchanges with the program: DNS records, the two
    requests the program issues and the envelopes the client hands back. The client
    itself (HTTP, credentials, serialisation) is not modelled; its answers are values. */
module Cloudflare {
  import opened Wrappers

  /** Unsigned integer widths of the Rust fields. */
  type U8 = x: int | 0 <= x < 0x100
  type U16 = x: int | 0 <= x < 0x1_0000
  type U32 = x: int | 0 <= x < 0x1_0000_0000

  /** An IPv4 address as its four octets, most significant first. */
  datatype Ipv4Addr = Ipv4Addr(a: U8, b: U8, c: U8, d: U8)

  /** The eight 16-bit segments of an IPv6 address. */
  type Segments = s: seq<U16> | |s| == 8 witness [0, 0, 0, 0, 0, 0, 0, 0]

  /** An IPv6 address as its eight 16-bit segments, most significant first. */
  datatype Ipv6Addr = Ipv6Addr(segments: Segments)

  /** The record data, tagged by DNS record type. */
  datatype DnsContent =
    | A(address: Ipv4Addr)
    | AAAA(address6: Ipv6Addr)
    | CNAME(target: string)
    | NS(target: string)
    | MX(target: string, priority: U16)
    | TXT(text: string)
    | SRV(target: string)

  /** The program's local copy of one DNS record as the provider returns it. */
  datatype DnsRecord = DnsRecord(
    id: string,
    zone_id: string,
    name: string,
    ttl: U32,
    proxied: bool,
    content: DnsContent
  )

  /** One provider-level error carried inside an envelope. */
  datatype ApiError = ApiError(code: U16, message: string)

  /** A successful envelope: the result and a (possibly non-empty) list of errors. */
  datatype ApiSuccess<+T> = ApiSuccess(result: T, errors: seq<ApiError>)

  /** Why a request failed: an unsuccessful HTTP status with its errors, or a transport,
      authentication or deserialisation failure. */
  datatype ApiFailure =
    | Error(status: U16, errors: seq<ApiError>)
    | Invalid(detail: string)

  /** What `client.request` returns. */
  datatype ApiResponse<+T> = Ok(success: ApiSuccess<T>) | Fail(failure: ApiFailure)

  /** The "list DNS records" request: a zone and the server-side name filter. */
  datatype ListDnsRecords = ListDnsRecords(zone_identifier: string, name: Option<string>)

  /** The parameters of an update; `None` leaves the choice to the provider. */
  datatype UpdateDnsRecordParams = UpdateDnsRecordParams(
    name: string,
    ttl: Option<U32>,
    proxied: Option<bool>,
    content: DnsContent
  )

  /** The "update DNS record" request: the record's zone and identifier, and the parameters. */
  datatype UpdateDnsRecord = UpdateDnsRecord(
    zone_identifier: string,
    identifier: string,
    params: UpdateDnsRecordParams
  )

  /** The same envelope with its error list replaced; a failure is left alone. */
  function WithErrors<T>(response: ApiResponse<T>, errors: seq<ApiError>): (r: ApiResponse<T>)
    ensures r.Ok? <==> response.Ok?
    ensures r.Ok? ==> r.success.result == response.success.result && r.success.errors == errors
    ensures r.Fail? ==> r == response
  {
    match response
    case Ok(s) => Ok(s.(errors := errors))
    case Fail(_) => response
  }
}
