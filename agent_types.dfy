/** The records the agent registry stores and returns, its errors, and the
    serialisation it relies on (JSON plus pydantic validation, and ISO-8601
    timestamps), taken here as given functions with a round-trip law. */
module AgentTypes {
  import opened Wrappers

  /** An instant; the model never looks inside one. */
  type Timestamp = int

  /** `AgentConfig`: the registry reads only `enable_session_persistence`;
      the rest of the document is carried unchanged. */
  datatype AgentConfig = AgentConfig(enableSessionPersistence: bool, document: string)

  datatype Agent = Agent(agentId: string, agentConfig: AgentConfig, createdAt: Timestamp)

  /** `AgentSessionInfo`, the record stored at `session:{agent}:{session}`. */
  datatype SessionInfo = SessionInfo(sessionId: string, sessionName: string, startedAt: Timestamp)

  datatype Step = Step(stepId: string, payload: string)

  datatype Turn = Turn(turnId: string, steps: seq<Step>)

  datatype Session = Session(sessionId: string, sessionName: string, turns: seq<Turn>, startedAt: Timestamp)

  /** Which store a `ChatAgent` is given: the durable persistence store or the
      registry's own in-memory store. */
  datatype StoreChoice = PersistenceStore | InMemoryStore

  /** What `_get_agent_impl` builds; the inference, safety, vector, tool and
      temp-dir handles it also passes are not modelled. */
  datatype ChatAgent = ChatAgent(agentId: string, agentConfig: AgentConfig, store: StoreChoice)

  datatype TurnCreateRequest = TurnCreateRequest(agentId: string, sessionId: string, stream: bool)

  datatype TurnResumeRequest = TurnResumeRequest(agentId: string, sessionId: string, turnId: string, stream: bool)

  /** The async generator a streaming call returns, not yet started. */
  datatype TurnStream =
    | CreateTurnStream(createRequest: TurnCreateRequest)
    | ResumeTurnStream(resumeRequest: TurnResumeRequest)

  /** The exceptions the registry raises, by cause. */
  datatype Error =
    | AgentNotFound(agentId: string)
    | AgentConfigInvalid(agentId: string)
    | SessionNotFound(sessionId: string)
    | TurnNotFound(turnId: string)
    | StepNotFound(stepId: string)
    | NotImplemented

  /** Serialisation: `model_dump_json` / `json.dumps` / `isoformat` one way,
      `json.loads` + validation / `fromisoformat` the other, each of which may
      fail. */
  datatype Codec = Codec(
    encodeConfig: AgentConfig -> string,
    decodeConfig: string -> Option<AgentConfig>,
    encodeIds: seq<string> -> string,
    decodeIds: string -> Option<seq<string>>,
    encodeTime: Timestamp -> string,
    decodeTime: string -> Option<Timestamp>,
    decodeSession: string -> Option<SessionInfo>,
    decodeTurn: string -> Option<Turn>)

  /** Decoding an encoded value gives it back, and the empty string decodes
      to nothing (`json.loads("")` and `fromisoformat("")` raise). */
  ghost predicate WellFormed(c: Codec)
  {
    && (forall x :: c.decodeConfig(c.encodeConfig(x)) == Some(x))
    && (forall ids :: c.decodeIds(c.encodeIds(ids)) == Some(ids))
    && (forall t :: c.decodeTime(c.encodeTime(t)) == Some(t))
    && c.decodeConfig("") == None
    && c.decodeIds("") == None
    && c.decodeTime("") == None
    && c.decodeSession("") == None
    && c.decodeTurn("") == None
  }
}
