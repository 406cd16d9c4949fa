/** The names of audit events, and who each is attributed to. */
module EventTypes {
  import opened RunScript

  const AGENT_EVENT_TYPES: set<string> := {
    "chain.genesis", "run.created", "run.started", "run.completed", "run.failed", "run.cancelled",
    "iteration.started", "iteration.completed", "iteration.failed", "llm.request", "llm.response",
    "file.read", "file.write", "spec.validated", "spec.rejected", "blast_radius.computed",
    "tool.call", "tool.result" }

  function ActorForEventType(eventType: string): string {
    if eventType in AGENT_EVENT_TYPES then "agent" else "system"
  }

  /** The event_type column of what a run emits. */
  function TypeOf(e: Event): string {
    match e
    case RunCreated => "run.created"
    case BlastRadiusComputed => "blast_radius.computed"
    case RunStarted => "run.started"
    case LlmRequest => "llm.request"
    case LlmResponse => "llm.response"
    case IterationStarted(_) => "iteration.started"
    case IterationCompleted(_) => "iteration.completed"
    case ToolCall(_) => "tool.call"
    case ToolResult(_) => "tool.result"
    case FileRead => "file.read"
    case FileWrite(_) => "file.write"
    case RunCompleted => "run.completed"
    case RunFailed => "run.failed"
    case RunCancelled => "run.cancelled"
  }

  /** Declared, and not emitted by the agent's runs. */
  predicate Unused(eventType: string) {
    || eventType == "chain.genesis"
    || eventType == "iteration.failed"
    || eventType == "spec.validated"
    || eventType == "spec.rejected"
  }

  /** The agent is the actor of everything a run emits and of the four other declared types; of anything else the
      actor is the system. */
  lemma ActorColumn(eventType: string)
    ensures (exists e :: eventType == TypeOf(e)) || Unused(eventType) ==> ActorForEventType(eventType) == "agent"
    ensures !((exists e :: eventType == TypeOf(e)) || Unused(eventType)) ==> ActorForEventType(eventType) == "system"
  {
    if eventType in AGENT_EVENT_TYPES && !Unused(eventType) {
      var e := EventOfType(eventType);
    }
  }

  lemma EventOfType(eventType: string) returns (e: Event)
    requires eventType in AGENT_EVENT_TYPES && !Unused(eventType)
    ensures TypeOf(e) == eventType
  {
    e := if eventType == "run.created" then RunCreated
         else if eventType == "blast_radius.computed" then BlastRadiusComputed
         else if eventType == "run.started" then RunStarted
         else if eventType == "llm.request" then LlmRequest
         else if eventType == "llm.response" then LlmResponse
         else if eventType == "iteration.started" then IterationStarted(0)
         else if eventType == "iteration.completed" then IterationCompleted(0)
         else if eventType == "tool.call" then ToolCall("")
         else if eventType == "tool.result" then ToolResult("")
         else if eventType == "file.read" then FileRead
         else if eventType == "file.write" then FileWrite("")
         else if eventType == "run.completed" then RunCompleted
         else if eventType == "run.failed" then RunFailed else RunCancelled;
  }
}
