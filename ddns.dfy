/** The program's top level (`main`): locate the record, build and issue the update, and
    decide how the run ends. The two responses of the Cloudflare client are inputs; the run
    records which requests were issued, which warnings were printed and how it ended. */
module Ddns {
  import opened Wrappers
  import opened Cloudflare
  import opened Locator
  import opened Updater

  /** The command line, already parsed: token, zone identifier, record name and address. */
  datatype Opts = Opts(token: string, zone: string, name: string, ip: Ipv4Addr)

  /** A request the program sends to the provider. */
  datatype Request =
    | ListRequest(list: ListDnsRecords)
    | UpdateRequest(update: UpdateDnsRecord)

  /** A non-empty error list from a successful envelope, printed to the error stream. */
  datatype Warning =
    | ListWarning(errors: seq<ApiError>)
    | UpdateWarning(errors: seq<ApiError>)

  /** How a run ends: the updated record (exit status 0), or one of the three panics. */
  datatype Outcome =
    | Updated(record: DnsRecord)
    | RecordNotFound(name: string)
    | ListRequestFailed(failure: ApiFailure)
    | UpdateRequestFailed(failure: ApiFailure)

  /** Everything observable about one run. */
  datatype Run = Run(requests: seq<Request>, warnings: seq<Warning>, outcome: Outcome)

  /** The list request: the requested zone, filtered server-side by the requested name. */
  function ListRequestFor(opts: Opts): ListDnsRecords {
    ListDnsRecords(opts.zone, Some(opts.name))
  }

  /** The warning printed for an envelope's error list, if that list is non-empty. */
  function ListWarnings(errors: seq<ApiError>): (ws: seq<Warning>)
    ensures |ws| <= 1 && (ws == [] <==> errors == [])
  {
    if errors == [] then [] else [ListWarning(errors)]
  }

  function UpdateWarnings(errors: seq<ApiError>): (ws: seq<Warning>)
    ensures |ws| <= 1 && (ws == [] <==> errors == [])
  {
    if errors == [] then [] else [UpdateWarning(errors)]
  }

  /** `main` after argument parsing and client construction. */
  function Execute(opts: Opts, listResponse: ApiResponse<seq<DnsRecord>>, updateResponse: ApiResponse<DnsRecord>)
    : (run: Run)
    ensures |run.requests| in {1, 2} && run.requests[0] == ListRequest(ListRequestFor(opts))
    ensures |run.requests| == 2 <==> run.outcome.Updated? || run.outcome.UpdateRequestFailed?
    ensures |run.requests| == 2 ==>
      run.requests[1].UpdateRequest? &&
      run.requests[1].update.zone_identifier == opts.zone &&
      run.requests[1].update.params.name == opts.name &&
      run.requests[1].update.params.content == A(opts.ip)
    ensures run.outcome.Updated? ==> updateResponse.Ok? && run.outcome.record == updateResponse.success.result
  {
    var list := ListRequest(ListRequestFor(opts));
    match Locate(opts.zone, opts.name, listResponse)
    case ListFailed(f) =>
      Run([list], [], ListRequestFailed(f))
    case Listed(errors, None) =>
      Run([list], ListWarnings(errors), RecordNotFound(opts.name))
    case Listed(errors, Some(record)) =>
      var issued := [list, UpdateRequest(UpdateRequestFor(record, opts.ip))];
      match updateResponse
      case Fail(f) =>
        Run(issued, ListWarnings(errors), UpdateRequestFailed(f))
      case Ok(s) =>
        Run(issued, ListWarnings(errors) + UpdateWarnings(s.errors), Updated(s.result))
  }

  /** Not found: exactly when the list request succeeded and no returned record is eligible
      (an empty list included); then no update request is issued. */
  lemma NotFoundIff(opts: Opts, listResponse: ApiResponse<seq<DnsRecord>>, updateResponse: ApiResponse<DnsRecord>)
    ensures
      var run := Execute(opts, listResponse, updateResponse);
      (run.outcome.RecordNotFound? <==>
        listResponse.Ok? &&
        forall i :: 0 <= i < |listResponse.success.result| ==>
          !Eligible(listResponse.success.result[i], opts.zone, opts.name)) &&
      (run.outcome.RecordNotFound? ==> run.requests == [ListRequest(ListRequestFor(opts))])
  {
  }

  /** A failed list request ends the run as a list failure, never as "not found", and no
      update is attempted. */
  lemma ListFailureIsFatal(opts: Opts, listResponse: ApiResponse<seq<DnsRecord>>, updateResponse: ApiResponse<DnsRecord>)
    requires listResponse.Fail?
    ensures Execute(opts, listResponse, updateResponse) ==
      Run([ListRequest(ListRequestFor(opts))], [], ListRequestFailed(listResponse.failure))
  {
  }

  /** When an eligible record exists, the run updates the first one in list order, with the
      caller's address, and ends as the update response says. */
  lemma {:induction false} UpdatesFirstEligible(
    opts: Opts, listResponse: ApiResponse<seq<DnsRecord>>, updateResponse: ApiResponse<DnsRecord>, k: nat)
    requires listResponse.Ok? && FirstEligibleIndex(listResponse.success.result, opts.zone, opts.name, k)
    ensures
      var run := Execute(opts, listResponse, updateResponse);
      run.requests == [ListRequest(ListRequestFor(opts)),
                       UpdateRequest(UpdateRequestFor(listResponse.success.result[k], opts.ip))] &&
      (updateResponse.Fail? ==> run.outcome == UpdateRequestFailed(updateResponse.failure)) &&
      (updateResponse.Ok? ==> run.outcome == Updated(updateResponse.success.result))
  {
    FirstEligibleAt(listResponse.success.result, opts.zone, opts.name, k);
  }

  /** An issued update is addressed to the first eligible returned record, in the requested
      zone, under the requested name, and keeps that record's TTL and proxy flag. */
  lemma {:induction false} IssuedUpdateTargetsFirstEligible(
    opts: Opts, listResponse: ApiResponse<seq<DnsRecord>>, updateResponse: ApiResponse<DnsRecord>)
    requires |Execute(opts, listResponse, updateResponse).requests| == 2
    ensures
      var update := Execute(opts, listResponse, updateResponse).requests[1].update;
      listResponse.Ok? &&
      exists k ::
        FirstEligibleIndex(listResponse.success.result, opts.zone, opts.name, k) &&
        update == UpdateRequestFor(listResponse.success.result[k], opts.ip)
  {
    FirstEligibleIsFirst(listResponse.success.result, opts.zone, opts.name);
  }

  /** The run succeeds exactly when the list request succeeded, some returned record is
      eligible and the update request succeeded. */
  lemma {:induction false} SuccessIff(opts: Opts, listResponse: ApiResponse<seq<DnsRecord>>, updateResponse: ApiResponse<DnsRecord>)
    ensures Execute(opts, listResponse, updateResponse).outcome.Updated? <==>
      listResponse.Ok? && updateResponse.Ok? &&
      exists k :: FirstEligibleIndex(listResponse.success.result, opts.zone, opts.name, k)
  {
    if listResponse.Ok? {
      var records := listResponse.success.result;
      if FirstEligible(records, opts.zone, opts.name).Some? {
        FirstEligibleIsFirst(records, opts.zone, opts.name);
      } else {
        assert forall k :: !FirstEligibleIndex(records, opts.zone, opts.name, k);
      }
    }
  }

  /** The errors inside a successful envelope are only warnings: replacing them changes
      neither the requests issued nor the outcome, only what is printed. */
  lemma WarningsDoNotChangeControlFlow(
    opts: Opts, listResponse: ApiResponse<seq<DnsRecord>>, updateResponse: ApiResponse<DnsRecord>,
    listErrors: seq<ApiError>, updateErrors: seq<ApiError>)
    ensures
      var run := Execute(opts, listResponse, updateResponse);
      var warned := Execute(opts, WithErrors(listResponse, listErrors), WithErrors(updateResponse, updateErrors));
      warned.requests == run.requests && warned.outcome == run.outcome
  {
  }

  /** The warnings printed are exactly the non-empty error lists of the successful
      envelopes the run received: the list envelope's first, then the update envelope's when
      an update was issued. Each warning carries the error list of its envelope. */
  lemma WarningsComeFromEnvelopes(opts: Opts, listResponse: ApiResponse<seq<DnsRecord>>, updateResponse: ApiResponse<DnsRecord>)
    ensures
      var run := Execute(opts, listResponse, updateResponse);
      run.warnings ==
        (if listResponse.Fail? then [] else ListWarnings(listResponse.success.errors)) +
        (if |run.requests| == 2 && updateResponse.Ok? then UpdateWarnings(updateResponse.success.errors) else [])
    ensures
      var run := Execute(opts, listResponse, updateResponse);
      forall w | w in run.warnings ::
        w.errors != [] &&
        (w.ListWarning? ==> listResponse.Ok? && w.errors == listResponse.success.errors) &&
        (w.UpdateWarning? ==> |run.requests| == 2 && updateResponse.Ok? && w.errors == updateResponse.success.errors)
  {
  }

  /** A zone holding one A record for the name: the update carries the record's TTL and
      proxy flag and the new address, and the run succeeds even with provider errors. */
  lemma SingleARecordIsUpdated(updated: DnsRecord, errors: seq<ApiError>)
    ensures
      var home := DnsRecord("R1", "Z1", "home.example.com", 300, false, A(Ipv4Addr(1, 2, 3, 4)));
      var opts := Opts("token", "Z1", "home.example.com", Ipv4Addr(5, 6, 7, 8));
      var run := Execute(opts, Ok(ApiSuccess([home], [])), Ok(ApiSuccess(updated, errors)));
      run.requests[1] == UpdateRequest(UpdateDnsRecord("Z1", "R1",
        UpdateDnsRecordParams("home.example.com", Some(300), Some(false), A(Ipv4Addr(5, 6, 7, 8))))) &&
      run.outcome == Updated(updated)
  {
  }

  /** A zone holding only a CNAME under the name: nothing is eligible, the run ends as
      "not found" and no update is issued. */
  lemma CnameOnlyIsNotFound(updateResponse: ApiResponse<DnsRecord>)
    ensures
      var alias := DnsRecord("R2", "Z1", "home.example.com", 300, true, CNAME("example.net"));
      var opts := Opts("token", "Z1", "home.example.com", Ipv4Addr(5, 6, 7, 8));
      var run := Execute(opts, Ok(ApiSuccess([alias], [])), updateResponse);
      run.outcome == RecordNotFound("home.example.com") && |run.requests| == 1
  {
  }

  /** A list request rejected with status 401 ends the run before any update. */
  lemma UnauthorisedListIsFatal(updateResponse: ApiResponse<DnsRecord>)
    ensures
      var opts := Opts("token", "Z1", "home.example.com", Ipv4Addr(5, 6, 7, 8));
      var run := Execute(opts, Fail(Error(401, [])), updateResponse);
      run.outcome == ListRequestFailed(Error(401, [])) && |run.requests| == 1
  {
  }
}
