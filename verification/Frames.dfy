/** The inbound wire frames, with the fields the client's aggregators read (packages/protocol/src/client/frames.ts). */
module Frames {
  import opened Prelude

  /** A JSON value; its structure is never inspected. */
  datatype Json = Json(repr: string)

  // ---------- user messages ----------

  datatype UserBlock = TextBlock(text: Option<string>) | ToolResultBlock(raw: Json) | OtherBlock(raw: Json)

  datatype UserContent = PlainText(text: string) | Blocks(blocks: seq<UserBlock>) | NoContent

  // ---------- streaming ----------

  datatype BlockInit =
    | ToolUseInit(id: Option<string>, name: Option<string>, input: Option<Json>)
    | ThinkingInit(thinking: Option<string>)
    | TextInit(text: Option<string>) // also any other type, and a missing block

  datatype Delta =
    | TextDelta(text: Option<string>)
    | InputJsonDelta(partialJson: Option<string>)
    | ThinkingDelta(thinking: Option<string>)
    | OtherDelta

  datatype StreamEvent =
    | MessageStart(id: string, model: Option<string>) // a missing id is the empty string
    | BlockStart(index: int, block: BlockInit)
    | BlockDelta(index: int, delta: Delta)
    | BlockStop(index: int)
    | MessageStop
    | OtherEvent

  // ---------- tasks ----------

  datatype UsageBlock = UsageBlock(totalTokens: Option<int>, toolUses: Option<int>, durationMs: Option<int>)

  datatype TaskEvent =
    | Started(taskId: string, toolUseId: Option<string>, taskType: Option<string>, description: Option<string>,
              workflowName: Option<string>, prompt: Option<string>)
    | Progress(taskId: string, description: Option<string>, lastToolName: Option<string>, summary: Option<string>,
               usage: Option<UsageBlock>)
    | Updated(taskId: string, hasPatch: bool, status: Option<string>)
    | Notification(taskId: string, toolUseId: Option<string>, status: Option<string>, summary: Option<string>,
                   outputFile: Option<string>, usage: Option<UsageBlock>)

  // ---------- frames ----------

  datatype SystemPayload =
    | Init
    | SessionStateChanged(state: string)
    | Hook(subtype: string)
    | TaskLifecycle(event: TaskEvent)
    | LocalCommandOutput(content: Option<string>)
    | Status(permissionMode: Option<string>)
    | OtherSystem(subtype: string)

  datatype ResponseSubtype = SuccessResponse | ErrorResponse | OtherResponse

  /** A missing request id is the empty string. */
  datatype Response = Response(requestId: string, subtype: ResponseSubtype, error: Option<string>,
                               response: Option<Json>, whole: Json)

  datatype Body =
    | System(payload: SystemPayload)
    | ControlResponse(response: Option<Response>)
    | ControlRequest(requestId: string, subtype: string)
    | User(content: UserContent, isReplay: bool)
    | Assistant(messageId: string, reply: Json) // a missing id is the empty string
    | Result(result: Json)
    | StreamEventBody(event: Option<StreamEvent>)
    | RateLimit
    | OtherType(kind: string)
    | Untyped

  /** A frame: the body its type selects, and the parent_tool_use_id any body may carry. */
  datatype Frame = Frame(body: Body, parent: Option<string>)

  /** The parent a sub-agent frame names; an empty string names none. */
  predicate HasParent(f: Frame) {
    f.parent.Some? && f.parent.value != ""
  }
}
