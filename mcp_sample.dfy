/**
 * The MCP sample's `run()`: the endpoint guard, the tool set-up before the
 * run, and the loop that polls the run and answers its tool-approval
 * requests until the run leaves the polled statuses or is cancelled.
 *
 * The service is abstracted into its answers: `created` is what `runs.create`
 * returned and `trace` the successive answers of `runs.get`. What the sample
 * does to the service is recorded as a log of requests.
 */
module McpSample {
  import opened Wrappers
  import opened AgentModels

  /** The remote requests the sample issues, in the order it issues them. */
  datatype Request =
    | OpenClient(endpoint: string)
    | CreateAgent(tool: McpToolDefinition)
    | CreateThread
    | PostMessage
    | CreateRun(resource: McpToolResource)
    | GetRun
    | SubmitApprovals(approvals: seq<ToolApproval>)
    | CancelRun

  datatype ConfigError = EndpointNotSet

  /** The configuration `run()` reads; absent optional settings already carry their defaults. */
  datatype Settings = Settings(
    endpoint: Option<string>,
    serverLabel: string,
    serverUrl: string,
    headerKey: string,
    headerValue: string)

  /**
   * How polling ends. `Settled` carries the last snapshot seen and the number
   * of `runs.get` calls made; `Exhausted` means the trace ran out while the
   * loop would have polled once more.
   */
  datatype Outcome =
    | Settled(log: seq<Request>, last: Run, polls: nat)
    | Exhausted(log: seq<Request>)

  /** The closing status line and, for a failed run, its error detail. */
  datatype Report = Report(status: RunStatus, failureShown: bool, failureDetail: Option<string>)

  datatype Session = Session(requests: seq<Request>, outcome: Outcome, report: Option<Report>)

  /** What one snapshot makes the loop request, and whether it leaves the loop. */
  datatype Response = Response(requests: seq<Request>, stop: bool)

  // ---------------------------------------------------------------- configuration

  /** The project endpoint, or an error when it is unset or empty. */
  function ProjectEndpoint(endpoint: Option<string>): (r: Result<string, ConfigError>)
    ensures r.Success? <==> endpoint.Some? && endpoint.value != ""
    ensures r.Success? ==> r.value == endpoint.value
  {
    if endpoint.None? || endpoint.value == "" then Failure(EndpointNotSet) else Success(endpoint.value)
  }

  // ---------------------------------------------------------------- approvals

  /** The approval sent for one MCP tool call. */
  function ApprovalFor(call: RequiredToolCall, headers: Headers): ToolApproval
  {
    ToolApproval(call.id, true, headers)
  }

  /** The approvals for a list of pending calls: one per MCP call, others skipped. */
  function Approvals(calls: seq<RequiredToolCall>, headers: Headers): (r: seq<ToolApproval>)
    ensures |r| <= |calls|
    ensures forall a :: a in r ==> a.approve && a.headers == headers
    ensures r == [] <==> forall c :: c in calls ==> !c.RequiredMcpToolCall?
  {
    if calls == [] then []
    else
      (if calls[0].RequiredMcpToolCall? then [ApprovalFor(calls[0], headers)] else [])
        + Approvals(calls[1..], headers)
  }

  /** The positions of the MCP calls in `calls`, in increasing order. */
  function McpPositions(calls: seq<RequiredToolCall>): (p: seq<nat>)
    ensures forall k :: 0 <= k < |p| ==> p[k] < |calls| && calls[p[k]].RequiredMcpToolCall?
    ensures forall k, l :: 0 <= k < l < |p| ==> p[k] < p[l]
    decreases |calls|
  {
    if calls == [] then []
    else
      var n := |calls| - 1;
      var p := McpPositions(calls[..n]);
      if calls[n].RequiredMcpToolCall? then p + [n] else p
  }

  /** No MCP call is left out of its positions. */
  lemma {:induction false} McpPositionsComplete(calls: seq<RequiredToolCall>, j: nat)
    requires j < |calls| && calls[j].RequiredMcpToolCall?
    ensures j in McpPositions(calls)
    decreases |calls|
  {
    var n := |calls| - 1;
    if j < n {
      McpPositionsComplete(calls[..n], j);
    }
  }

  lemma {:induction false} ApprovalsAppend(a: seq<RequiredToolCall>, b: seq<RequiredToolCall>, headers: Headers)
    ensures Approvals(a + b, headers) == Approvals(a, headers) + Approvals(b, headers)
  {
    if a == [] {
      assert a + b == b;
    } else {
      assert (a + b)[0] == a[0];
      assert (a + b)[1..] == a[1..] + b;
      ApprovalsAppend(a[1..], b, headers);
    }
  }

  /** Appending one call appends its approval, if it is an MCP call. */
  lemma ApprovalsSnoc(init: seq<RequiredToolCall>, call: RequiredToolCall, headers: Headers)
    ensures Approvals(init + [call], headers) ==
      Approvals(init, headers) + (if call.RequiredMcpToolCall? then [ApprovalFor(call, headers)] else [])
  {
    ApprovalsAppend(init, [call], headers);
    assert [call][1..] == [];
  }

  /**
   * The approval batch is the order-preserving image of the MCP calls: its
   * k-th entry approves the k-th MCP call with the given headers.
   */
  lemma {:induction false} ApprovalsFollowMcpPositions(calls: seq<RequiredToolCall>, headers: Headers)
    ensures |Approvals(calls, headers)| == |McpPositions(calls)|
    ensures forall k :: 0 <= k < |McpPositions(calls)| ==>
      Approvals(calls, headers)[k] == ApprovalFor(calls[McpPositions(calls)[k]], headers)
    decreases |calls|
  {
    if calls != [] {
      var n := |calls| - 1;
      var init := calls[..n];
      ApprovalsFollowMcpPositions(init, headers);
      assert calls == init + [calls[n]];
      ApprovalsSnoc(init, calls[n], headers);
      var p := McpPositions(init);
      forall k | 0 <= k < |p|
        ensures calls[p[k]] == init[p[k]]
      {
      }
    }
  }

  /** Builds the approval batch by walking the calls once, appending as it goes. */
  method BuildApprovals(calls: seq<RequiredToolCall>, headers: Headers) returns (approvals: seq<ToolApproval>)
    ensures approvals == Approvals(calls, headers)
  {
    approvals := [];
    for i := 0 to |calls|
      invariant approvals == Approvals(calls[..i], headers)
    {
      if calls[i].RequiredMcpToolCall? {
        approvals := approvals + [ToolApproval(calls[i].id, true, headers)];
      }
      assert calls[..i + 1] == calls[..i] + [calls[i]];
      ApprovalsSnoc(calls[..i], calls[i], headers);
    }
    assert calls[..|calls|] == calls;
  }

  // ---------------------------------------------------------------- one poll

  /** The statuses for which the loop polls again. */
  predicate Polled(status: RunStatus)
  {
    status == Queued || status == InProgress || status == RequiresAction
  }

  /** The pending calls of a snapshot that asks for tool approval, if it does. */
  function ApprovalCalls(s: Run): Option<seq<RequiredToolCall>>
  {
    if s.status == RequiresAction && s.requiredAction.Some? && s.requiredAction.value.SubmitToolApprovalAction?
    then Some(s.requiredAction.value.toolCalls)
    else None
  }

  /** A snapshot asking for approval of no calls at all: the loop cancels the run. */
  predicate IsCancelSnapshot(s: Run)
  {
    ApprovalCalls(s) == Some([])
  }

  /** A snapshot after which the loop does not poll again. */
  predicate Settles(s: Run)
  {
    !Polled(s.status) || IsCancelSnapshot(s)
  }

  /** What the loop does with one freshly fetched snapshot. */
  function Respond(s: Run, headers: Headers): Response
  {
    match ApprovalCalls(s)
    case None => Response([], false)
    case Some(calls) =>
      if calls == [] then Response([CancelRun], true)
      else
        var batch := Approvals(calls, headers);
        Response(if batch == [] then [] else [SubmitApprovals(batch)], false)
  }

  /**
   * One snapshot: a request for approval of no calls cancels and leaves the
   * loop; one whose calls include an MCP call gets exactly one submission of
   * their batch; one whose calls include none, or that is not an approval
   * request at all, gets nothing and polling goes on.
   */
  lemma RespondAnswersSnapshot(s: Run, headers: Headers)
    ensures var r := Respond(s, headers);
      && (r.stop <==> IsCancelSnapshot(s))
      && (r.stop ==> r.requests == [CancelRun])
      && (ApprovalCalls(s).None? ==> r.requests == [])
    ensures var r := Respond(s, headers);
      ApprovalCalls(s).Some? && McpPositions(ApprovalCalls(s).value) != [] ==>
        r.requests == [SubmitApprovals(Approvals(ApprovalCalls(s).value, headers))]
    ensures var r := Respond(s, headers);
      ApprovalCalls(s).Some? && ApprovalCalls(s).value != [] && McpPositions(ApprovalCalls(s).value) == [] ==>
        r.requests == [] && !r.stop
  {
    if ApprovalCalls(s).Some? {
      ApprovalsFollowMcpPositions(ApprovalCalls(s).value, headers);
    }
  }

  /** A poll that stays in the loop sends nothing, or one non-empty batch for the snapshot's calls. */
  lemma RespondWithoutStop(s: Run, headers: Headers)
    requires !Respond(s, headers).stop
    ensures var r := Respond(s, headers);
      || r.requests == []
      || (&& ApprovalCalls(s).Some?
          && Approvals(ApprovalCalls(s).value, headers) != []
          && r.requests == [SubmitApprovals(Approvals(ApprovalCalls(s).value, headers))])
  {
  }

  // ---------------------------------------------------------------- the polling loop

  /** An outcome with `k` earlier polls, which issued `p`, put in front. */
  function AfterPolls(p: seq<Request>, k: nat, o: Outcome): Outcome
  {
    match o
    case Settled(log, last, polls) => Settled(p + log, last, polls + k)
    case Exhausted(log) => Exhausted(p + log)
  }

  /** The loop, entered with snapshot `current` and answered by `trace`. */
  function Drive(current: Run, trace: seq<Run>, headers: Headers): (o: Outcome)
    ensures (o.Settled? && o.polls == 0) <==> !Polled(current.status)
    ensures o.Settled? ==> o.polls <= |trace|
    decreases |trace|
  {
    if !Polled(current.status) then Settled([], current, 0)
    else if trace == [] then Exhausted([])
    else
      var r := Respond(trace[0], headers);
      if r.stop then Settled([GetRun] + r.requests, trace[0], 1)
      else AfterPolls([GetRun] + r.requests, 1, Drive(trace[0], trace[1..], headers))
  }

  /** The requests of a sequence of polls, each fetch followed by its answer. */
  function PollRequests(snapshots: seq<Run>, headers: Headers): seq<Request>
  {
    if snapshots == [] then []
    else [GetRun] + Respond(snapshots[0], headers).requests + PollRequests(snapshots[1..], headers)
  }

  /** Every request other than a fetch directly answers the fetch before it. */
  predicate AnswersPolls(log: seq<Request>)
  {
    forall i :: 0 <= i < |log| && log[i] != GetRun ==> 0 < i && log[i - 1] == GetRun
  }

  /** One poll of the loop, from a snapshot in a polled status. */
  lemma DriveUnfold(current: Run, trace: seq<Run>, headers: Headers)
    requires Polled(current.status) && trace != []
    ensures var r := Respond(trace[0], headers);
      Drive(current, trace, headers) ==
        if r.stop then Settled([GetRun] + r.requests, trace[0], 1)
        else AfterPolls([GetRun] + r.requests, 1, Drive(trace[0], trace[1..], headers))
  {
  }

  lemma AfterPollsTwice(p: seq<Request>, k: nat, q: seq<Request>, m: nat, o: Outcome)
    ensures AfterPolls(p, k, AfterPolls(q, m, o)) == AfterPolls(p + q, k + m, o)
  {
    assert forall l: seq<Request> :: p + (q + l) == (p + q) + l;
  }

  /** Handles one freshly fetched snapshot: cancel, submit a batch, or nothing. */
  method AnswerSnapshot(run: Run, headers: Headers) returns (requests: seq<Request>, stop: bool)
    ensures Response(requests, stop) == Respond(run, headers)
  {
    requests, stop := [], false;
    if run.status == RequiresAction && run.requiredAction.Some? && run.requiredAction.value.SubmitToolApprovalAction? {
      var toolCalls := run.requiredAction.value.toolCalls;
      if |toolCalls| == 0 {
        return [CancelRun], true;
      }
      var approvals := BuildApprovals(toolCalls, headers);
      if |approvals| > 0 {
        requests := [SubmitApprovals(approvals)];
      }
    }
  }

  /** The polling loop of `run()`, over the finite trace of snapshots. */
  method PollRun(created: Run, trace: seq<Run>, headers: Headers) returns (o: Outcome)
    ensures o == Drive(created, trace, headers)
  {
    var run := created;
    var i := 0;
    var log: seq<Request> := [];
    while Polled(run.status)
      invariant i <= |trace|
      invariant Drive(created, trace, headers) == AfterPolls(log, i, Drive(run, trace[i..], headers))
      decreases |trace| - i
    {
      if i == |trace| {
        assert log + [] == log;
        return Exhausted(log);
      }
      ghost var before, previous, rest := log, run, trace[i..];
      assert rest[0] == trace[i] && rest[1..] == trace[i + 1..];
      DriveUnfold(previous, rest, headers);
      run := trace[i];
      i := i + 1;
      var requests, stop := AnswerSnapshot(run, headers);
      log := log + [GetRun] + requests;
      assert log == before + ([GetRun] + requests);
      if stop {
        AfterPollsTwice(before, i - 1, [GetRun] + requests, 1, Settled([], run, 0));
        break;
      }
      AfterPollsTwice(before, i - 1, [GetRun] + requests, 1, Drive(run, trace[i..], headers));
    }
    if !Polled(run.status) {
      assert log + [] == log;
    }
    o := Settled(log, run, i);
  }

  /** The closing report: the final status, and the run's error only when it failed. */
  function FinalReport(last: Run): (rep: Report)
    ensures rep.status == last.status
    ensures rep.failureShown <==> last.status == Failed
    ensures !rep.failureShown ==> rep.failureDetail == None
    ensures rep.failureShown ==> rep.failureDetail == last.lastError
  {
    if last.status == Failed then Report(last.status, true, last.lastError)
    else Report(last.status, false, None)
  }

  // ---------------------------------------------------------------- run()

  /**
   * `run()`: refuse an unset endpoint before anything else, then create the
   * agent, thread and message, set the tool's header and approval mode,
   * start the run and poll it.
   */
  method RunSample(settings: Settings, created: Run, trace: seq<Run>) returns (r: Result<Session, ConfigError>)
    ensures r.Failure? <==> settings.endpoint.None? || settings.endpoint.value == ""
    ensures r.Success? ==>
      var headers := map[settings.headerKey := settings.headerValue];
      var o := Drive(created, trace, headers);
      && r.value.requests ==
        [ OpenClient(settings.endpoint.value),
          CreateAgent(McpToolDefinition(settings.serverLabel, settings.serverUrl, [])),
          CreateThread,
          PostMessage,
          CreateRun(McpToolResource(settings.serverLabel, headers, Never)) ] + o.log
      && r.value.outcome == o
      && r.value.report == (if o.Settled? then Some(FinalReport(o.last)) else None)
  {
    var endpoint := ProjectEndpoint(settings.endpoint);
    if endpoint.Failure? {
      return Failure(endpoint.error);
    }
    var requests := [OpenClient(endpoint.value)];
    var tool := new McpTool(settings.serverLabel, settings.serverUrl, []);
    requests := requests + [CreateAgent(tool.Definition()), CreateThread, PostMessage];
    tool.UpdateHeaders(settings.headerKey, settings.headerValue);
    tool.SetApprovalMode(Never);
    requests := requests + [CreateRun(tool.Resource())];
    var outcome := PollRun(created, trace, tool.headers);
    var report := if outcome.Settled? then Some(FinalReport(outcome.last)) else None;
    r := Success(Session(requests + outcome.log, outcome, report));
  }

  // ---------------------------------------------------------------- properties of the loop

  /**
   * When the run is created in a status outside the polled set, the loop is
   * not entered: nothing is fetched or sent, and the created snapshot is the
   * one reported.
   */
  lemma DriveNotEntered(current: Run, trace: seq<Run>, headers: Headers)
    requires !Polled(current.status)
    ensures Drive(current, trace, headers) == Settled([], current, 0)
  {
  }

  /**
   * Polling stops at the first fetched snapshot that is outside the polled
   * statuses or cancels; the log holds exactly the requests of the polls up
   * to and including that one, and the reported snapshot is that one.
   */
  lemma {:induction false} DriveStopsAtFirstSettledSnapshot(current: Run, trace: seq<Run>, headers: Headers, k: nat)
    requires Polled(current.status)
    requires k < |trace| && Settles(trace[k])
    requires forall j :: 0 <= j < k ==> !Settles(trace[j])
    ensures Drive(current, trace, headers) == Settled(PollRequests(trace[..k + 1], headers), trace[k], k + 1)
    decreases k
  {
    var r := Respond(trace[0], headers);
    assert trace[..k + 1][0] == trace[0];
    assert trace[..k + 1][1..] == trace[1..][..k];
    if k == 0 {
      assert trace[1..][..0] == [];
      if !r.stop {
        assert Drive(trace[0], trace[1..], headers) == Settled([], trace[0], 0);
      }
    } else {
      assert !Settles(trace[0]);
      DriveStopsAtFirstSettledSnapshot(trace[0], trace[1..], headers, k - 1);
      assert trace[1..][k - 1] == trace[k];
    }
  }

  /** When no snapshot of the trace settles, the loop polls through all of it. */
  lemma {:induction false} DriveExhaustsTrace(current: Run, trace: seq<Run>, headers: Headers)
    requires Polled(current.status)
    requires forall j :: 0 <= j < |trace| ==> !Settles(trace[j])
    ensures Drive(current, trace, headers) == Exhausted(PollRequests(trace, headers))
    decreases |trace|
  {
    if trace != [] {
      assert !Settles(trace[0]);
      DriveExhaustsTrace(trace[0], trace[1..], headers);
    }
  }

  /**
   * A cancel is in the log exactly when polling ended on a snapshot asking to
   * approve no calls; it is then the last request, it is sent once, and the
   * reported status is `requires_action` with no failure detail.
   */
  predicate CancelsLast(o: Outcome)
  {
    && (CancelRun in o.log <==> o.Settled? && o.polls > 0 && IsCancelSnapshot(o.last))
    && (CancelRun in o.log ==>
         && o.log[|o.log| - 1] == CancelRun
         && CancelRun !in o.log[..|o.log| - 1]
         && FinalReport(o.last).status == RequiresAction
         && !FinalReport(o.last).failureShown)
  }

  /** A poll that sends no cancel keeps `CancelsLast` of the polls after it. */
  lemma CancelsLastAfterPoll(p: seq<Request>, o: Outcome)
    requires CancelRun !in p && CancelsLast(o)
    requires o.Settled? && o.polls == 0 ==> !IsCancelSnapshot(o.last)
    ensures CancelsLast(AfterPolls(p, 1, o))
  {
    var o2 := AfterPolls(p, 1, o);
    assert o2.log == p + o.log;
    if CancelRun in o.log {
      assert o2.log[..|o2.log| - 1] == p + o.log[..|o.log| - 1];
    }
  }

  /**
   * The run is cancelled exactly when polling ended on a snapshot asking to
   * approve no calls; the cancel is the last request, is issued once, and the
   * reported status is `requires_action` with no failure detail.
   */
  lemma {:induction false} DriveCancelEndsPolling(current: Run, trace: seq<Run>, headers: Headers)
    ensures CancelsLast(Drive(current, trace, headers))
    decreases |trace|
  {
    if !Polled(current.status) {
      DriveNotEntered(current, trace, headers);
    } else if trace != [] {
      var r := Respond(trace[0], headers);
      if r.stop {
        assert [GetRun, CancelRun][..1] == [GetRun];
      } else {
        RespondWithoutStop(trace[0], headers);
        DriveCancelEndsPolling(trace[0], trace[1..], headers);
        if !Polled(trace[0].status) {
          DriveNotEntered(trace[0], trace[1..], headers);
        }
        CancelsLastAfterPoll([GetRun] + r.requests, Drive(trace[0], trace[1..], headers));
      }
    }
  }

  /** How many snapshots of a trace of length `traceLength` the loop fetched. */
  function FetchCount(o: Outcome, traceLength: nat): nat
  {
    if o.Settled? then o.polls else traceLength
  }

  /** `batch` is the approval batch built for one of the `fetched` snapshots. */
  predicate BatchOfSomeSnapshot(batch: seq<ToolApproval>, fetched: seq<Run>, headers: Headers)
  {
    exists j :: 0 <= j < |fetched| && ApprovalCalls(fetched[j]).Some? && batch == Approvals(ApprovalCalls(fetched[j]).value, headers)
  }

  /**
   * A request that is a submission carries a non-empty batch approving each
   * entry with exactly `headers`, built for one of the `fetched` snapshots.
   */
  predicate SubmitsFetchedBatch(r: Request, fetched: seq<Run>, headers: Headers)
  {
    r.SubmitApprovals? ==>
      && r.approvals != []
      && (forall a :: a in r.approvals ==> a.approve && a.headers == headers)
      && BatchOfSomeSnapshot(r.approvals, fetched, headers)
  }

  /** Every request in the log of `o` meets `SubmitsFetchedBatch` for the snapshots fetched. */
  predicate SubmitsFetchedBatches(o: Outcome, trace: seq<Run>, headers: Headers)
  {
    FetchCount(o, |trace|) <= |trace| &&
    forall i :: 0 <= i < |o.log| ==> SubmitsFetchedBatch(o.log[i], trace[..FetchCount(o, |trace|)], headers)
  }

  /** A request meeting `SubmitsFetchedBatch` still does when an earlier fetch is put in front. */
  lemma SubmitsFetchedBatchShift(r: Request, s: Run, fetched: seq<Run>, headers: Headers)
    requires SubmitsFetchedBatch(r, fetched, headers)
    ensures SubmitsFetchedBatch(r, [s] + fetched, headers)
  {
    if r.SubmitApprovals? {
      var j :| 0 <= j < |fetched| && ApprovalCalls(fetched[j]).Some? &&
        r.approvals == Approvals(ApprovalCalls(fetched[j]).value, headers);
      assert ([s] + fetched)[j + 1] == fetched[j];
    }
  }

  /** The submission answering the fetched snapshot `s` meets `SubmitsFetchedBatch`. */
  lemma SubmitsFetchedBatchOfSnapshot(s: Run, fetched: seq<Run>, headers: Headers)
    requires ApprovalCalls(s).Some? && Approvals(ApprovalCalls(s).value, headers) != []
    ensures SubmitsFetchedBatch(SubmitApprovals(Approvals(ApprovalCalls(s).value, headers)), [s] + fetched, headers)
  {
    assert ([s] + fetched)[0] == s;
  }

  /** One more poll of `s`, sending `p`, in front of the polls of `rest`. */
  lemma SubmitsFetchedBatchesAfterPoll(p: seq<Request>, o: Outcome, s: Run, rest: seq<Run>, headers: Headers)
    requires
      || p == [GetRun]
      || (&& ApprovalCalls(s).Some?
          && Approvals(ApprovalCalls(s).value, headers) != []
          && p == [GetRun, SubmitApprovals(Approvals(ApprovalCalls(s).value, headers))])
    requires SubmitsFetchedBatches(o, rest, headers)
    ensures SubmitsFetchedBatches(AfterPolls(p, 1, o), [s] + rest, headers)
  {
    var trace := [s] + rest;
    var o2 := AfterPolls(p, 1, o);
    var n := FetchCount(o, |rest|);
    assert FetchCount(o2, |trace|) == n + 1;
    var fetched' := rest[..n];
    assert trace[..n + 1] == [s] + fetched';
    assert o2.log == p + o.log;
    forall i | 0 <= i < |o2.log|
      ensures SubmitsFetchedBatch(o2.log[i], [s] + fetched', headers)
    {
      if i == 0 {
        assert o2.log[i] == GetRun;
      } else if i < |p| {
        assert o2.log[i] == p[1];
        SubmitsFetchedBatchOfSnapshot(s, fetched', headers);
      } else {
        assert o2.log[i] == o.log[i - |p|];
        SubmitsFetchedBatchShift(o2.log[i], s, fetched', headers);
      }
    }
  }

  /**
   * Every submitted batch is non-empty, approves every entry with exactly
   * `headers`, and is the approval batch of one snapshot the loop fetched.
   */
  lemma {:induction false} DriveSubmitsOnlyNonEmptyBatches(current: Run, trace: seq<Run>, headers: Headers)
    ensures SubmitsFetchedBatches(Drive(current, trace, headers), trace, headers)
    decreases |trace|
  {
    if !Polled(current.status) {
      DriveNotEntered(current, trace, headers);
    } else if trace != [] {
      var r := Respond(trace[0], headers);
      if !r.stop {
        RespondWithoutStop(trace[0], headers);
        DriveSubmitsOnlyNonEmptyBatches(trace[0], trace[1..], headers);
        assert trace == [trace[0]] + trace[1..];
        SubmitsFetchedBatchesAfterPoll([GetRun] + r.requests, Drive(trace[0], trace[1..], headers), trace[0], trace[1..], headers);
      }
    }
  }

  /** Each poll is answered by at most one request, issued right after the fetch. */
  lemma {:induction false} DriveAnswersEachPollAtMostOnce(current: Run, trace: seq<Run>, headers: Headers)
    ensures AnswersPolls(Drive(current, trace, headers).log)
    decreases |trace|
  {
    if Polled(current.status) && trace != [] {
      var r := Respond(trace[0], headers);
      var p := [GetRun] + r.requests;
      if !r.stop {
        RespondWithoutStop(trace[0], headers);
        DriveAnswersEachPollAtMostOnce(trace[0], trace[1..], headers);
        var o' := Drive(trace[0], trace[1..], headers);
        var log := p + o'.log;
        assert Drive(current, trace, headers).log == log;
        forall i | 0 <= i < |log| && log[i] != GetRun
          ensures 0 < i && log[i - 1] == GetRun
        {
          if i >= |p| {
            assert log[i] == o'.log[i - |p|];
            assert log[i - 1] == o'.log[i - 1 - |p|];
          }
        }
      }
    }
  }

  /** A run that never asks for action is only ever fetched: no approval, no cancel. */
  lemma {:induction false} DriveSilentWithoutRequiresAction(current: Run, trace: seq<Run>, headers: Headers)
    requires forall j :: 0 <= j < |trace| ==> trace[j].status != RequiresAction
    ensures forall q :: q in Drive(current, trace, headers).log ==> q == GetRun
    decreases |trace|
  {
    if Polled(current.status) && trace != [] {
      assert trace[0].status != RequiresAction;
      DriveSilentWithoutRequiresAction(trace[0], trace[1..], headers);
    }
  }

  /**
   * Queued, in progress, one MCP call awaiting approval, in progress,
   * completed: one batch approving that call is submitted, and polling stops
   * at the completed snapshot after four fetches.
   */
  lemma ApprovedCallThenCompleted(call: RequiredToolCall, headers: Headers)
    requires call.RequiredMcpToolCall?
    ensures
      var trace := [
        Run(InProgress, None, None),
        Run(RequiresAction, Some(SubmitToolApprovalAction([call])), None),
        Run(InProgress, None, None),
        Run(Completed, None, None)];
      Drive(Run(Queued, None, None), trace, headers) ==
        Settled([GetRun, GetRun, SubmitApprovals([ToolApproval(call.id, true, headers)]), GetRun, GetRun],
                Run(Completed, None, None), 4)
  {
    var trace := [
      Run(InProgress, None, None),
      Run(RequiresAction, Some(SubmitToolApprovalAction([call])), None),
      Run(InProgress, None, None),
      Run(Completed, None, None)];
    var batch := [ToolApproval(call.id, true, headers)];
    assert Approvals([call], headers) == batch by {
      assert [call][1..] == [];
    }
    assert Respond(trace[1], headers).requests == [SubmitApprovals(batch)];
    DriveStopsAtFirstSettledSnapshot(Run(Queued, None, None), trace, headers, 3);
    assert trace[..4] == trace;
    assert PollRequests(trace[3..], headers) == [GetRun] by {
      assert trace[3..][1..] == [];
    }
    assert PollRequests(trace[2..], headers) == [GetRun, GetRun] by {
      assert trace[2..][1..] == trace[3..];
    }
    assert PollRequests(trace[1..], headers) == [GetRun, SubmitApprovals(batch), GetRun, GetRun] by {
      assert trace[1..][1..] == trace[2..];
    }
  }
}
