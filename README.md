# MCP tool-approval sample, modelled in Dafny

This project models `run()` from the repository's MCP sample script. The script
connects to a hosted agent service, creates an agent with one MCP (Model
Context Protocol) tool, and posts one user message. It then starts a run and
polls that run until the status leaves `queued`, `in_progress` and
`requires_action`. While polling, it answers the run's tool-approval requests:

- a request listing no tool calls makes it cancel the run and stop polling;
- otherwise it approves every MCP tool call with the tool's configured
  headers, skips calls of other kinds, and submits the batch only when it is
  non-empty.

The remote service is replaced by its answers. `created` is the snapshot
returned when the run is created. `trace` is the finite sequence of snapshots
that successive `runs.get` calls return. What the script does to the service
is an output log of `Request`s: opening the client, creating the agent, thread,
message and run, `GetRun` for each poll, `SubmitApprovals(batch)` and
`CancelRun`. If the trace runs out while the loop would poll again, the
outcome is `Exhausted`. The real script would keep polling.

Files:

- `wrappers.dfy`: `Option` and `Result`.
- `agent_models.dfy` (module `AgentModels`): the service shapes the script
  uses. These are run status, run snapshot, required action, required tool
  calls (MCP and function kinds) and tool approval. It also holds the MCP tool
  descriptor, a class whose headers and approval mode are updated in place.
- `mcp_sample.dfy` (module `McpSample`): the endpoint guard and the approval
  batch, as a method with a loop proved equal to a specification function.
  It also holds the handling of one snapshot, the polling loop (method
  `PollRun`, proved equal to the recursive specification `Drive`), the final
  report, the whole of `run()`, and the lemmas about the loop.

The approval mode is kept as data. The script sets it to `never`, and a
service honouring that mode may never ask for approval. The loop is still
modelled for every trace, because the mode does not change what the client
code does with a snapshot.

## Model

| member | source | states |
|---|---|---|
| `McpSample.ProjectEndpoint` | mcp.py:18-20 | The endpoint is accepted exactly when it is set and non-empty. An unset or empty endpoint is an `EndpointNotSet` error. |
| `McpSample.RunSample` | mcp.py:18-120 | An unset or empty endpoint fails with no request issued at all, so no client is built. Otherwise the requests are: open the client; create the agent with the MCP definition (empty allow-list); create the thread; post the message; create the run with resource headers `{key: value}` and mode `never`; then exactly the polling log of `Drive` under those headers. The report is `FinalReport` of the last snapshot. The run-step and message listings that follow the report are not in the log. |
| `AgentModels.McpTool.constructor` | mcp.py:29-33 | A new descriptor keeps its label, URL and allow-list, forwards no headers and asks for approval of every call. |
| `AgentModels.McpTool.UpdateHeaders` | mcp.py:77 | Sets the one header `key := value` and keeps the other headers and the approval mode. |
| `AgentModels.McpTool.SetApprovalMode` | mcp.py:78 | Sets the approval mode and keeps the headers. |
| `McpSample.Approvals` | mcp.py:94-105 | The batch is no longer than the call list. Every entry has `approve = true` and exactly the given headers. The batch is empty iff no call is an MCP call. |
| `McpSample.McpPositions` | mcp.py:95-96 | Strictly increasing positions, each of an MCP call. |
| `McpSample.McpPositionsComplete` | mcp.py:95-96 | Every MCP call's position is among the positions, so no MCP call is skipped. |
| `McpSample.ApprovalsAppend` | mcp.py:94-105 | Building a batch distributes over concatenation of call lists, so the filter keeps order. |
| `McpSample.ApprovalsFollowMcpPositions` | mcp.py:94-105 | The batch has one entry per MCP call. Entry k approves the k-th MCP call, in call order, with that call's id, `approve = true` and the given headers. Non-MCP calls have no entry. |
| `McpSample.BuildApprovals` | mcp.py:94-105 | The batch that the append-as-you-go loop builds equals `Approvals` of the calls. |
| `McpSample.RespondAnswersSnapshot` | mcp.py:87-113 | One snapshot is answered as follows. It stops the loop iff it asks for approval of an empty call list, and the requests are then exactly one cancel. A snapshot that is not a tool-approval request causes nothing. A call list with at least one MCP call causes exactly one submission, of `Approvals` of those calls. A non-empty call list with no MCP call causes nothing and does not stop the loop. |
| `McpSample.AnswerSnapshot` | mcp.py:87-113 | The method handling one snapshot issues exactly the requests of `Respond` and stops exactly when `Respond` does. |
| `McpSample.Drive` | mcp.py:79-85 | The loop does not poll at all iff the status from run creation is outside `queued`, `in_progress` and `requires_action`. It never polls more often than the trace allows. |
| `McpSample.DriveNotEntered` | mcp.py:83 | When the status from run creation is outside the polled set, the loop is not entered. Nothing is fetched or sent, and the created snapshot is the one reported. |
| `McpSample.PollRun` | mcp.py:83-115 | The polling method, with its early `break` on cancel, yields exactly `Drive` of the created snapshot and the trace. |
| `McpSample.FinalReport` | mcp.py:118-120 | Reports the last observed status. The failure detail is shown iff that status is `failed`, and it is then the run's last error. |
| `McpSample.DriveStopsAtFirstSettledSnapshot` | mcp.py:83-92 | Polling ends at the first fetched snapshot whose status is outside the polled set or that cancels. That snapshot is reported after k+1 fetches. The log is exactly the requests of those k+1 polls, so nothing is sent after it. |
| `McpSample.DriveExhaustsTrace` | mcp.py:83-85 | If no snapshot settles, the loop fetches every snapshot of the trace and its log is exactly their polls' requests. |
| `McpSample.DriveCancelEndsPolling` | mcp.py:87-92 | A cancel is sent iff polling ended, after at least one fetch, on a snapshot asking for approval of no calls. The cancel is then the last request and is sent once, with no fetch after it. The reported status is then `requires_action`, with no failure detail. |
| `McpSample.DriveSubmitsOnlyNonEmptyBatches` | mcp.py:94-113 | Every submitted batch is non-empty and is the approval batch of one of the snapshots the loop actually fetched: the first `polls` snapshots of the trace, or all of them when it ran out. Each of its approvals has `approve = true` and exactly the tool's headers. |
| `McpSample.DriveAnswersEachPollAtMostOnce` | mcp.py:83-113 | Every request other than a fetch comes right after a fetch. So each poll causes at most one submit or cancel, and nothing comes before the first fetch. |
| `McpSample.DriveSilentWithoutRequiresAction` | mcp.py:83-87 | A run that never reports `requires_action` is only fetched. It gets no approvals and no cancel. |
| `McpSample.ApprovedCallThenCompleted` | mcp.py:83-115 | The trace queued, in progress, one MCP call awaiting approval, in progress, completed gives four fetches. It gives exactly one submission approving that call, and polling stops at `completed`. |

## Left out

- The one-second sleep between polls and the unbounded polling: the service is a finite trace, and a trace that runs out while the loop would poll again gives `Exhausted`, not termination.
- Real calls to the cloud service: the client, agent, thread, message and run operations are entries in the request log. `runs.get` answers are the trace. Run, thread, agent and message ids are not modelled; every request addresses the one run that was created.
- The service's response to the approval mode: the `never` mode is passed in the run's tool resource, and the model does not constrain what traces a service then produces.
- The `try`/`except` around building one approval: building a `ToolApproval` record cannot fail in the model.
- The `run_steps.list` and `messages.list` requests after the final status line (mcp.py:123-124, mcp.py:143): they only feed console output, so `RunSample`'s log ends with the last request of the polling loop.
- Console output: the progress lines, the run-step and tool-call listing, and the conversation transcript after the run. Only the final status line and the failure detail are modelled, as `FinalReport`.
- Environment defaults and `.env` loading: `Settings` carries the values already resolved, and only the endpoint may be absent.
- `AgentModels.McpTool.constructor`: a new descriptor starts with no headers and the approval mode `always`. This is an assumption about the service library, whose code is not part of this model. It is what makes every approval carry exactly the one configured header.
- `openapi.py`: file and JSON loading, building the SDK objects and forwarding the streamed agent output are I/O and thin wrappers over library code, so they are not part of this model.
