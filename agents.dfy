/** `MetaReferenceAgentsImpl`: the agent registry over a persistence store.
    It keeps the list of tracked agent ids in a field and mirrors it under
    the `agent_ids` key; agents, their creation times and sessions live under
    the keys of module AgentKeys. */
module Agents {
  import opened Wrappers
  import opened Seqs
  import opened KVStore
  import opened AgentKeys
  import opened AgentTypes
  import opened AgentSpec

  class MetaReferenceAgents {
    /** The store `kvstore_impl` produced in `initialize`. Every backend is
        modelled by the same map-plus-order store; `backend` says which one
        it stands for, which is what the `isinstance` checks look at. */
    const persistenceStore: InmemoryKVStore
    const backend: StoreImpl
    const codec: Codec
    /** `self.agent_ids` */
    var agentIds: seq<string>

    ghost predicate Valid()
      reads this, persistenceStore
    {
      persistenceStore.Valid()
    }

    /** `isinstance(self.persistence_store, InmemoryKVStoreImpl)`. Such a
        store never comes from `kvstore_impl`: a caller installed it. */
    predicate InMemoryBackend()
      ensures InMemoryBackend() ==> forall tag :: KVStoreImpl(tag).Success? ==> KVStoreImpl(tag).value != backend
    {
      backend == InmemoryKVStoreImpl
    }

    constructor (persistenceStore: InmemoryKVStore, backend: StoreImpl, codec: Codec)
      ensures this.persistenceStore == persistenceStore && this.backend == backend && this.codec == codec
      ensures agentIds == []
    {
      this.persistenceStore := persistenceStore;
      this.backend := backend;
      this.codec := codec;
      agentIds := [];
    }

    /** Loading the tracked ids: `agent_ids` is read, decoded, and an
        undecodable value resets the list. */
    method Initialize()
      modifies this
      ensures agentIds == LoadedIds(old(agentIds), persistenceStore.Get(AgentIdsKey), codec)
    {
      var json := persistenceStore.Get(AgentIdsKey);
      if Truthy(json) {
        match codec.decodeIds(json.value) {
          case Some(ids) => agentIds := ids;
          case None => agentIds := [];
        }
      }
    }

    /** The stored creation time of an agent, or `now`; specified by
        `CreatedAt`. */
    method LoadCreatedAt(agentId: string, now: Timestamp) returns (createdAt: Timestamp)
      ensures createdAt == CreatedAt(persistenceStore.store, codec, agentId, now)
    {
      createdAt := now;
      var json := persistenceStore.Get(CreatedAtKey(agentId));
      if Truthy(json) {
        match codec.decodeTime(json.value) {
          case Some(t) => createdAt := t;
          case None =>
        }
      }
    }

    /** `create_agent`, with the uuid it draws as `freshId` and the clock
        reading as `now`. */
    method CreateAgent(config: AgentConfig, freshId: string, now: Timestamp) returns (agentId: string)
      requires Valid()
      modifies this, persistenceStore
      ensures Valid()
      ensures agentId == freshId
      ensures agentIds == old(agentIds) + [agentId]
      ensures persistenceStore.store == AfterCreate(old(persistenceStore.store), codec, agentId, config, now, agentIds)
      ensures persistenceStore.order ==
              PutOrder(PutOrder(PutOrder(old(persistenceStore.order), AgentKey(agentId)), CreatedAtKey(agentId)), AgentIdsKey)
      ensures WellFormed(codec) ==>
                forall t :: LookupAgent(persistenceStore.store, codec, agentId, t) == Success(Agent(agentId, config, now))
    {
      agentId := freshId;
      persistenceStore.Set(AgentKey(agentId), codec.encodeConfig(config));
      persistenceStore.Set(CreatedAtKey(agentId), codec.encodeTime(now));
      agentIds := agentIds + [agentId];
      persistenceStore.Set(AgentIdsKey, codec.encodeIds(agentIds));
      if WellFormed(codec) {
        forall t ensures LookupAgent(persistenceStore.store, codec, agentId, t) == Success(Agent(agentId, config, now)) {
          CreateThenGet(old(persistenceStore.store), codec, agentId, config, now, agentIds, t);
        }
      }
    }

    /** `_get_agent_impl`; specified by `ResolveAgent`. */
    method GetAgentImpl(agentId: string) returns (r: Result<ChatAgent, Error>)
      ensures r == ResolveAgent(persistenceStore.store, codec, agentId)
    {
      var json := persistenceStore.Get(AgentKey(agentId));
      if !Truthy(json) {
        return Failure(AgentNotFound(agentId));
      }
      match codec.decodeConfig(json.value) {
        case None =>
          r := Failure(AgentConfigInvalid(agentId));
        case Some(config) =>
          var store := if config.enableSessionPersistence then PersistenceStore else InMemoryStore;
          r := Success(ChatAgent(agentId, config, store));
      }
    }

    /** `get_agent`; specified by `LookupAgent`. */
    method GetAgent(agentId: string, now: Timestamp) returns (r: Result<Agent, Error>)
      ensures r == LookupAgent(persistenceStore.store, codec, agentId, now)
    {
      var json := persistenceStore.Get(AgentKey(agentId));
      if !Truthy(json) {
        return Failure(AgentNotFound(agentId));
      }
      match codec.decodeConfig(json.value) {
        case None =>
          r := Failure(AgentConfigInvalid(agentId));
        case Some(config) =>
          var createdAt := LoadCreatedAt(agentId, now);
          r := Success(Agent(agentId, config, createdAt));
      }
    }

    /** `delete_agent`: the agent's keys go, the id list is rewritten only
        when the id was tracked, and no session or turn key is touched. */
    method DeleteAgent(agentId: string)
      requires Valid()
      modifies this, persistenceStore
      ensures Valid()
      ensures old(agentId in agentIds) ==> agentIds == RemoveFirst(old(agentIds), agentId)
      ensures old(agentId !in agentIds) ==> agentIds == old(agentIds)
      ensures persistenceStore.store ==
              if old(agentId in agentIds)
              then AfterDelete(old(persistenceStore.store), agentId)[AgentIdsKey := codec.encodeIds(agentIds)]
              else AfterDelete(old(persistenceStore.store), agentId)
      ensures var w := Without(Without(old(persistenceStore.order), AgentKey(agentId)), CreatedAtKey(agentId));
              persistenceStore.order == if old(agentId in agentIds) then PutOrder(w, AgentIdsKey) else w
      ensures forall t :: LookupAgent(persistenceStore.store, codec, agentId, t) == Failure(AgentNotFound(agentId))
      ensures forall k :: "session:" <= k ==> persistenceStore.Get(k) == old(persistenceStore.Get(k))
    {
      persistenceStore.Delete(AgentKey(agentId));
      persistenceStore.Delete(CreatedAtKey(agentId));
      if agentId in agentIds {
        agentIds := RemoveFirst(agentIds, agentId);
        persistenceStore.Set(AgentIdsKey, codec.encodeIds(agentIds));
      }
      AgentKeysDistinct(agentId, agentId);
      forall k | "session:" <= k
        ensures persistenceStore.Get(k) == old(persistenceStore.Get(k))
      {
        AgentKeysOutsideSessions(agentId, k);
      }
    }

    /** `delete_agents_session`: only the session's own key is removed; its
        turn keys stay behind. */
    method DeleteAgentsSession(agentId: string, sessionId: string)
      requires Valid()
      modifies persistenceStore
      ensures Valid()
      ensures persistenceStore.store == old(persistenceStore.store) - {SessionKey(agentId, sessionId)}
      ensures persistenceStore.order == Without(old(persistenceStore.order), SessionKey(agentId, sessionId))
      ensures forall t :: persistenceStore.Get(TurnKey(agentId, sessionId, t)) == old(persistenceStore.Get(TurnKey(agentId, sessionId, t)))
    {
      persistenceStore.Delete(SessionKey(agentId, sessionId));
      forall t ensures TurnKey(agentId, sessionId, t) != SessionKey(agentId, sessionId) {
        assert |TurnKey(agentId, sessionId, t)| > |SessionKey(agentId, sessionId)|;
      }
    }

    /** `list_agents`, with the clock reading as `now`. Every backend loads
        the tracked agents; on the in-memory backend the store is then
        scanned for agents the list misses, and the healed list is written
        back under `agent_ids`. */
    method ListAgents(now: Timestamp) returns (agents: seq<Agent>)
      requires Valid()
      modifies this, persistenceStore
      ensures Valid()
      ensures !InMemoryBackend() ==>
                && agents == LoadTracked(old(persistenceStore.store), codec, now, old(agentIds))
                && agentIds == old(agentIds)
                && persistenceStore.store == old(persistenceStore.store)
                && persistenceStore.order == old(persistenceStore.order)
      ensures InMemoryBackend() ==>
                var tracked := LoadTracked(old(persistenceStore.store), codec, now, old(agentIds));
                var r := Reconcile(old(persistenceStore.store), codec, now, Listing(tracked, old(agentIds)), old(persistenceStore.order));
                && agents == r.agents
                && agentIds == r.trackedIds
                && persistenceStore.store == old(persistenceStore.store)[AgentIdsKey := codec.encodeIds(agentIds)]
                && persistenceStore.order == PutOrder(old(persistenceStore.order), AgentIdsKey)
    {
      agents := [];
      var i := 0;
      while i < |agentIds|
        modifies {}
        invariant 0 <= i <= |agentIds|
        invariant agents == LoadTracked(persistenceStore.store, codec, now, agentIds[..i])
      {
        var r := GetAgent(agentIds[i], now);
        assert agentIds[..i + 1][..i] == agentIds[..i];
        if r.Success? {
          agents := agents + [r.value];
        }
        i := i + 1;
      }
      assert agentIds[..i] == agentIds;

      if InMemoryBackend() {
        var m, keys := persistenceStore.store, persistenceStore.order;
        ghost var start := Listing(agents, agentIds);
        var j := 0;
        while j < |keys|
          modifies this
          invariant 0 <= j <= |keys|
          invariant forall k :: k in keys ==> k in m
          invariant persistenceStore.store == m && persistenceStore.order == keys
          invariant Reconcile(m, codec, now, start, keys[..j]) == Listing(agents, agentIds)
        {
          var key := keys[j];
          assert keys[..j + 1][..j] == keys[..j];
          if IsAgentConfigKey(key) {
            var agentId := key[6..];
            if agentId !in AgentIdsOf(agents) {
              match codec.decodeConfig(m[key]) {
                case None =>
                case Some(config) =>
                  var createdAt := LoadCreatedAt(agentId, now);
                  agents := agents + [Agent(agentId, config, createdAt)];
                  if agentId !in agentIds {
                    agentIds := agentIds + [agentId];
                  }
              }
            }
          }
          j := j + 1;
        }
        assert keys[..j] == keys;
        persistenceStore.Set(AgentIdsKey, codec.encodeIds(agentIds));
      }
    }

    /** The turns of one session, read from the snapshot `m` in the order
        `keys`. */
    method LoadSessionTurns(m: map<string, string>, keys: seq<string>, agentId: string, sessionId: string, durable: bool)
      returns (turns: seq<Turn>)
      ensures turns == SessionTurns(m, codec, keys, agentId, sessionId, durable)
    {
      turns := [];
      var j := 0;
      while j < |keys|
        invariant 0 <= j <= |keys|
        invariant turns == SessionTurns(m, codec, keys[..j], agentId, sessionId, durable)
      {
        var key := keys[j];
        assert keys[..j + 1][..j] == keys[..j];
        if key in m && IsTurnKeyOf(key, agentId, sessionId) {
          var turn := ReadRecord(m[key], durable, codec.decodeTurn);
          if turn.Some? {
            turns := turns + [turn.value];
          }
        }
        j := j + 1;
      }
      assert keys[..j] == keys;
    }

    /** `list_agent_sessions`: an agent without a configuration record is an
        error; otherwise every session key of the agent whose record decodes
        becomes a session with the turns stored under it. The in-memory
        branch walks `_store.items()`, the other `list_keys()`; both follow
        the store's enumeration order. */
    method ListAgentSessions(agentId: string) returns (r: Result<seq<Session>, Error>)
      requires Valid()
      ensures r.Failure? <==> !Truthy(persistenceStore.Get(AgentKey(agentId)))
      ensures r.Failure? ==> r.error == AgentNotFound(agentId)
      ensures r.Success? ==>
                r.value == AgentSessions(persistenceStore.store, codec, persistenceStore.order, agentId, !InMemoryBackend())
    {
      var json := persistenceStore.Get(AgentKey(agentId));
      if !Truthy(json) {
        return Failure(AgentNotFound(agentId));
      }
      var durable := !InMemoryBackend();
      var m := persistenceStore.store;
      var keys := persistenceStore.ListKeys(None);
      var sessions: seq<Session> := [];
      var j := 0;
      while j < |keys|
        invariant 0 <= j <= |keys|
        invariant sessions == Collect(keys[..j], SessionLoader(m, codec, keys, agentId, durable))
      {
        var key := keys[j];
        assert keys[..j + 1][..j] == keys[..j];
        assert key in m;
        if IsSessionKeyOf(key, agentId) {
          var info := ReadRecord(m[key], durable, codec.decodeSession);
          if info.Some? {
            var turns := LoadSessionTurns(m, keys, agentId, LastSegment(key), durable);
            sessions := sessions + [SessionOf(info.value, turns)];
          }
        }
        j := j + 1;
      }
      assert keys[..j] == keys;
      return Success(sessions);
    }

    /** `get_agents_session`, with what the agent's storage returns for the
        session's info and turns as `sessionInfo` and `storedTurns`. */
    method GetAgentsSession(agentId: string, sessionId: string, turnIds: Option<seq<string>>,
                            sessionInfo: Option<SessionInfo>, storedTurns: seq<Turn>)
      returns (r: Result<Session, Error>)
      ensures ResolveAgent(persistenceStore.store, codec, agentId).Failure? ==>
                r == Failure(ResolveAgent(persistenceStore.store, codec, agentId).error)
      ensures ResolveAgent(persistenceStore.store, codec, agentId).Success? && sessionInfo.None? ==>
                r == Failure(SessionNotFound(sessionId))
      ensures r.Success? ==>
                && sessionInfo.Some?
                && r.value.sessionId == sessionId
                && r.value.sessionName == sessionInfo.value.sessionName
                && r.value.startedAt == sessionInfo.value.startedAt
                && r.value.turns == SelectTurns(storedTurns, turnIds)
      ensures r.Success? <==> ResolveAgent(persistenceStore.store, codec, agentId).Success? && sessionInfo.Some?
    {
      var agent := GetAgentImpl(agentId);
      if agent.Failure? {
        return Failure(agent.error);
      }
      if sessionInfo.None? {
        return Failure(SessionNotFound(sessionId));
      }
      var turns := storedTurns;
      if turnIds.Some? && turnIds.value != [] {
        turns := Filter(turns, TurnIdIn(turnIds.value));
      }
      r := Success(Session(sessionId, sessionInfo.value.sessionName, turns, sessionInfo.value.startedAt));
    }

    /** `get_agents_turn`, with what the agent's storage returns for the turn
        as `storedTurn` (possibly nothing, which is passed on). */
    method GetAgentsTurn(agentId: string, sessionId: string, turnId: string, storedTurn: Option<Turn>)
      returns (r: Result<Option<Turn>, Error>)
      ensures r.Success? <==> ResolveAgent(persistenceStore.store, codec, agentId).Success?
      ensures r.Success? ==> r.value == storedTurn
      ensures r.Failure? ==> r.error == ResolveAgent(persistenceStore.store, codec, agentId).error
    {
      var agent := GetAgentImpl(agentId);
      if agent.Failure? {
        return Failure(agent.error);
      }
      r := Success(storedTurn);
    }

    /** `get_agents_step`: the first step of the turn with id `stepId`. A
        missing turn (the source dereferences `None` there) is reported as
        `TurnNotFound`. */
    method GetAgentsStep(agentId: string, sessionId: string, turnId: string, stepId: string, storedTurn: Option<Turn>)
      returns (r: Result<Step, Error>)
      ensures ResolveAgent(persistenceStore.store, codec, agentId).Failure? ==>
                r == Failure(ResolveAgent(persistenceStore.store, codec, agentId).error)
      ensures ResolveAgent(persistenceStore.store, codec, agentId).Success? && storedTurn.None? ==>
                r == Failure(TurnNotFound(turnId))
      ensures r.Success? ==>
                && storedTurn.Some?
                && exists i :: 0 <= i < |storedTurn.value.steps| && storedTurn.value.steps[i] == r.value &&
                               forall j :: 0 <= j < i ==> storedTurn.value.steps[j].stepId != stepId
      ensures r.Success? ==> r.value.stepId == stepId
      ensures ResolveAgent(persistenceStore.store, codec, agentId).Success? && storedTurn.Some? ==>
                (r.Failure? <==> forall i :: 0 <= i < |storedTurn.value.steps| ==> storedTurn.value.steps[i].stepId != stepId)
      ensures r.Failure? && ResolveAgent(persistenceStore.store, codec, agentId).Success? && storedTurn.Some? ==>
                r.error == StepNotFound(stepId)
    {
      var turn := GetAgentsTurn(agentId, sessionId, turnId, storedTurn);
      if turn.Failure? {
        return Failure(turn.error);
      }
      if turn.value.None? {
        return Failure(TurnNotFound(turnId));
      }
      var steps := turn.value.value.steps;
      var i := 0;
      while i < |steps|
        invariant 0 <= i <= |steps|
        invariant forall j :: 0 <= j < i ==> steps[j].stepId != stepId
      {
        if steps[i].stepId == stepId {
          return Success(steps[i]);
        }
        i := i + 1;
      }
      r := Failure(StepNotFound(stepId));
    }

    /** `create_agent_session`: resolves the agent, then the agent creates
        the session; its new id is given as `newSessionId`. */
    method CreateAgentSession(agentId: string, sessionName: string, newSessionId: string)
      returns (r: Result<string, Error>)
      ensures r.Success? <==> Loadable(persistenceStore.store, codec, agentId)
      ensures r.Success? ==> r.value == newSessionId
      ensures r.Failure? ==> r.error == ResolveAgent(persistenceStore.store, codec, agentId).error
    {
      var agent := GetAgentImpl(agentId);
      if agent.Failure? {
        return Failure(agent.error);
      }
      r := Success(newSessionId);
    }

    /** `create_agent_turn`: only streaming is implemented, and the request
        always asks to stream. Nothing is looked up until the stream runs.
        The source's `stream` is optional and defaults to `False`; an absent
        or `None` flag is falsy, which `stream == false` stands for here. */
    method CreateAgentTurn(agentId: string, sessionId: string, stream: bool) returns (r: Result<TurnStream, Error>)
      ensures r.Failure? <==> !stream
      ensures r.Failure? ==> r.error == NotImplemented
      ensures r.Success? ==>
                && r.value.CreateTurnStream?
                && r.value.createRequest.agentId == agentId
                && r.value.createRequest.sessionId == sessionId
                && r.value.createRequest.stream
    {
      var request := TurnCreateRequest(agentId, sessionId, true);
      if stream {
        r := Success(CreateTurnStream(request));
      } else {
        r := Failure(NotImplemented);
      }
    }

    /** `resume_agent_turn`: likewise, including the optional `stream`
        defaulting to `False`; the request carries the caller's `stream`
        flag, so a resumed stream always has it set. */
    method ResumeAgentTurn(agentId: string, sessionId: string, turnId: string, stream: bool)
      returns (r: Result<TurnStream, Error>)
      ensures r.Failure? <==> !stream
      ensures r.Failure? ==> r.error == NotImplemented
      ensures r.Success? ==>
                && r.value.ResumeTurnStream?
                && r.value.resumeRequest == TurnResumeRequest(agentId, sessionId, turnId, true)
    {
      var request := TurnResumeRequest(agentId, sessionId, turnId, stream);
      if stream {
        r := Success(ResumeTurnStream(request));
      } else {
        r := Failure(NotImplemented);
      }
    }
  }
}
