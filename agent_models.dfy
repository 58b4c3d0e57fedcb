/**
 * The shapes of the hosted agent service that the MCP sample reads and
 * writes: run snapshots, the action a run may require, the tool calls such an
 * action lists, the approval records the sample sends back, and the MCP tool
 * descriptor whose headers and approval mode the sample sets before the run.
 */
module AgentModels {
  import opened Wrappers

  /** HTTP headers forwarded to the MCP server. */
  type Headers = map<string, string>

  /** The statuses a run reports. */
  datatype RunStatus =
    | Queued
    | InProgress
    | RequiresAction
    | Cancelling
    | Cancelled
    | Failed
    | Completed
    | Expired

  /** One pending tool invocation listed by a required action. */
  datatype RequiredToolCall =
    | RequiredMcpToolCall(id: string, name: string, serverLabel: string, arguments: string)
    | RequiredFunctionToolCall(id: string, name: string, arguments: string)

  /** What a run in `requires_action` asks the client to do. */
  datatype RequiredAction =
    | SubmitToolApprovalAction(toolCalls: seq<RequiredToolCall>)
    | SubmitToolOutputsAction(toolCalls: seq<RequiredToolCall>)

  /** What a client learns about a run from one `runs.create` or `runs.get`. */
  datatype Run = Run(status: RunStatus, requiredAction: Option<RequiredAction>, lastError: Option<string>)

  /** The decision sent back for one tool call. */
  datatype ToolApproval = ToolApproval(toolCallId: string, approve: bool, headers: Headers)

  /** Whether the service asks before running an MCP tool call. */
  datatype ApprovalMode = Always | Never

  /** What the agent is told about the MCP tool when it is created. */
  datatype McpToolDefinition = McpToolDefinition(serverLabel: string, serverUrl: string, allowedTools: seq<string>)

  /** What a run is told about the MCP tool when it is started. */
  datatype McpToolResource = McpToolResource(serverLabel: string, headers: Headers, requireApproval: ApprovalMode)

  /**
   * The MCP tool descriptor. Its definition is fixed at construction; its
   * headers and approval mode are updated in place before a run is started.
   */
  class McpTool {
    const serverLabel: string
    const serverUrl: string
    const allowedTools: seq<string>
    var headers: Headers
    var approvalMode: ApprovalMode

    /** A fresh descriptor forwards no headers and asks for approval of every call. */
    constructor (serverLabel: string, serverUrl: string, allowedTools: seq<string>)
      ensures this.serverLabel == serverLabel && this.serverUrl == serverUrl
      ensures this.allowedTools == allowedTools
      ensures headers == map[] && approvalMode == Always
    {
      this.serverLabel := serverLabel;
      this.serverUrl := serverUrl;
      this.allowedTools := allowedTools;
      headers := map[];
      approvalMode := Always;
    }

    /** Sets one forwarded header, keeping the others. */
    method UpdateHeaders(key: string, value: string)
      modifies this
      ensures headers == old(headers)[key := value]
      ensures approvalMode == old(approvalMode)
    {
      headers := headers[key := value];
    }

    /** Sets the approval mode, keeping the headers. */
    method SetApprovalMode(mode: ApprovalMode)
      modifies this
      ensures approvalMode == mode
      ensures headers == old(headers)
    {
      approvalMode := mode;
    }

    /** The definition handed to `create_agent`. */
    function Definition(): McpToolDefinition
      reads this
    {
      McpToolDefinition(serverLabel, serverUrl, allowedTools)
    }

    /** The resource handed to `runs.create`, carrying the current headers and mode. */
    function Resource(): McpToolResource
      reads this
    {
      McpToolResource(serverLabel, headers, approvalMode)
    }
  }
}
