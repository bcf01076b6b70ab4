/** What the registry's operations compute, as functions of the store's map
    and enumeration order, with the properties the registry promises proved
    about them. The imperative methods in module Agents are proved equal to
    these functions. */
module AgentSpec {
  import opened Wrappers
  import opened Seqs
  import opened AgentKeys
  import opened AgentTypes

  /** `get` on the store's map, as the specification functions read it; the
      store's own `Get` returns the same. */
  function Lookup(m: map<string, string>, key: string): Option<string>
  {
    if key in m then Some(m[key]) else None
  }

  /** Python truthiness of an optional string (`if value:`): present and
      not empty. */
  predicate Truthy(v: Option<string>)
  {
    v.Some? && v.value != ""
  }

  /** The creation time the registry reports: the stored `created_at` when it
      is there and parses, otherwise `now` (`datetime.now()` at the call). */
  function CreatedAt(m: map<string, string>, codec: Codec, agentId: string, now: Timestamp): Timestamp
  {
    var v := Lookup(m, CreatedAtKey(agentId));
    if Truthy(v) && codec.decodeTime(v.value).Some? then codec.decodeTime(v.value).value else now
  }

  /** The agent's configuration record exists and decodes. */
  predicate Loadable(m: map<string, string>, codec: Codec, agentId: string)
  {
    Truthy(Lookup(m, AgentKey(agentId))) && codec.decodeConfig(m[AgentKey(agentId)]).Some?
  }

  /** `get_agent(agent_id)` */
  function LookupAgent(m: map<string, string>, codec: Codec, agentId: string, now: Timestamp): (r: Result<Agent, Error>)
    ensures r.Success? <==> Loadable(m, codec, agentId)
    ensures !Truthy(Lookup(m, AgentKey(agentId))) ==> r == Failure(AgentNotFound(agentId))
    ensures r.Success? ==>
              && r.value.agentId == agentId
              && codec.decodeConfig(m[AgentKey(agentId)]) == Some(r.value.agentConfig)
              && r.value.createdAt == CreatedAt(m, codec, agentId, now)
  {
    var v := Lookup(m, AgentKey(agentId));
    if !Truthy(v) then Failure(AgentNotFound(agentId))
    else
      match codec.decodeConfig(v.value)
      case None => Failure(AgentConfigInvalid(agentId))
      case Some(config) => Success(Agent(agentId, config, CreatedAt(m, codec, agentId, now)))
  }

  /** `_get_agent_impl(agent_id)`: the agent's own store is the durable one
      exactly when its configuration asks for session persistence. */
  function ResolveAgent(m: map<string, string>, codec: Codec, agentId: string): (r: Result<ChatAgent, Error>)
    ensures r.Success? <==> Loadable(m, codec, agentId)
    ensures !Truthy(Lookup(m, AgentKey(agentId))) ==> r == Failure(AgentNotFound(agentId))
    ensures r.Failure? && Truthy(Lookup(m, AgentKey(agentId))) ==> r == Failure(AgentConfigInvalid(agentId))
    ensures r.Success? ==>
              && r.value.agentId == agentId
              && codec.decodeConfig(m[AgentKey(agentId)]) == Some(r.value.agentConfig)
              && (r.value.store == PersistenceStore <==> r.value.agentConfig.enableSessionPersistence)
  {
    var v := Lookup(m, AgentKey(agentId));
    if !Truthy(v) then Failure(AgentNotFound(agentId))
    else
      match codec.decodeConfig(v.value)
      case None => Failure(AgentConfigInvalid(agentId))
      case Some(config) =>
        Success(ChatAgent(agentId, config, if config.enableSessionPersistence then PersistenceStore else InMemoryStore))
  }

  /** The store's map after `create_agent` wrote an agent with id `agentId`
      and then the id list `ids`. */
  function AfterCreate(m: map<string, string>, codec: Codec, agentId: string, config: AgentConfig,
                       createdAt: Timestamp, ids: seq<string>): map<string, string>
  {
    m[AgentKey(agentId) := codec.encodeConfig(config)]
     [CreatedAtKey(agentId) := codec.encodeTime(createdAt)]
     [AgentIdsKey := codec.encodeIds(ids)]
  }

  /** Round trip: the agent `create_agent` stored is the one `get_agent`
      returns, with the stored creation time. */
  lemma CreateThenGet(m: map<string, string>, codec: Codec, agentId: string, config: AgentConfig,
                      createdAt: Timestamp, ids: seq<string>, now: Timestamp)
    requires WellFormed(codec)
    ensures LookupAgent(AfterCreate(m, codec, agentId, config, createdAt, ids), codec, agentId, now)
            == Success(Agent(agentId, config, createdAt))
  {
    AgentKeysDistinct(agentId, agentId);
    assert |AgentKey(agentId)| != |CreatedAtKey(agentId)|;
    var m' := AfterCreate(m, codec, agentId, config, createdAt, ids);
    assert m'[AgentKey(agentId)] == codec.encodeConfig(config);
    assert m'[CreatedAtKey(agentId)] == codec.encodeTime(createdAt);
    assert codec.encodeConfig(config) != "" by {
      assert codec.decodeConfig(codec.encodeConfig(config)) == Some(config);
    }
    assert codec.encodeTime(createdAt) != "" by {
      assert codec.decodeTime(codec.encodeTime(createdAt)) == Some(createdAt);
    }
  }

  /** The tracked id list after `initialize` read the `agent_ids` value `v`:
      the decoded list when `v` is non-empty and decodes, an empty list when
      it does not decode, and the current list when there is no value. */
  function LoadedIds(current: seq<string>, v: Option<string>, codec: Codec): seq<string>
  {
    if !Truthy(v) then current
    else
      match codec.decodeIds(v.value)
      case Some(ids) => ids
      case None => []
  }

  /** Restart round trip: `initialize` after `create_agent` restores the id
      list `create_agent` wrote, whatever the list held before. */
  lemma RestartRestoresIds(m: map<string, string>, codec: Codec, agentId: string, config: AgentConfig,
                           createdAt: Timestamp, ids: seq<string>, current: seq<string>)
    requires WellFormed(codec)
    ensures LoadedIds(current, Lookup(AfterCreate(m, codec, agentId, config, createdAt, ids), AgentIdsKey), codec) == ids
  {
    var e := codec.encodeIds(ids);
    assert codec.decodeIds(e) == Some(ids);
    assert e != "";
  }

  /** `list_agents`' first loop, for one tracked id: load it, or skip it when
      its record is missing or does not decode. */
  function TrackedLoader(m: map<string, string>, codec: Codec, now: Timestamp): string -> Option<Agent>
  {
    agentId =>
      match LookupAgent(m, codec, agentId, now)
      case Success(a) => Some(a)
      case Failure(_) => None
  }

  /** The agents `list_agents` loads from the tracked id list. */
  function LoadTracked(m: map<string, string>, codec: Codec, now: Timestamp, ids: seq<string>): seq<Agent>
  {
    Collect(ids, TrackedLoader(m, codec, now))
  }

  function AgentIdsOf(agents: seq<Agent>): (r: seq<string>)
    ensures |r| == |agents|
  {
    seq(|agents|, i requires 0 <= i < |agents| => agents[i].agentId)
  }

  lemma AgentIdsOfSnoc(agents: seq<Agent>, a: Agent)
    ensures AgentIdsOf(agents + [a]) == AgentIdsOf(agents) + [a.agentId]
  {
    assert forall i :: 0 <= i < |agents| ==> AgentIdsOf(agents + [a])[i] == agents[i].agentId;
  }

  function LoadablePred(m: map<string, string>, codec: Codec): string -> bool
  {
    agentId => Loadable(m, codec, agentId)
  }

  /** Without reconciliation `list_agents` returns, in tracked order, exactly
      the tracked ids whose record exists and decodes, each as `get_agent`
      would return it; the others are skipped, not fatal. */
  lemma {:induction false} LoadTrackedExact(m: map<string, string>, codec: Codec, now: Timestamp, ids: seq<string>)
    ensures AgentIdsOf(LoadTracked(m, codec, now, ids)) == Filter(ids, LoadablePred(m, codec))
    ensures forall a :: a in LoadTracked(m, codec, now, ids) ==> LookupAgent(m, codec, a.agentId, now) == Success(a)
  {
    var f := TrackedLoader(m, codec, now);
    if ids != [] {
      var ids', x := ids[..|ids| - 1], ids[|ids| - 1];
      LoadTrackedExact(m, codec, now, ids');
      assert ids == ids' + [x];
      FilterAppend(ids', x, LoadablePred(m, codec));
      match f(x)
      case Some(a) =>
        AgentIdsOfSnoc(LoadTracked(m, codec, now, ids'), a);
      case None =>
    }
    forall a | a in LoadTracked(m, codec, now, ids)
      ensures LookupAgent(m, codec, a.agentId, now) == Success(a)
    {
      CollectMember(ids, f, a);
      var x :| x in ids && f(x) == Some(a);
    }
  }

  /** Loading tracked ids only looks at their two agent keys. */
  lemma {:induction false} LoadTrackedFrame(m: map<string, string>, m': map<string, string>, codec: Codec,
                                            now: Timestamp, ids: seq<string>)
    requires forall id :: id in ids ==> Lookup(m, AgentKey(id)) == Lookup(m', AgentKey(id))
    requires forall id :: id in ids ==> Lookup(m, CreatedAtKey(id)) == Lookup(m', CreatedAtKey(id))
    ensures LoadTracked(m, codec, now, ids) == LoadTracked(m', codec, now, ids)
  {
    forall x | x in ids
      ensures TrackedLoader(m, codec, now)(x) == TrackedLoader(m', codec, now)(x)
    {
      assert LookupAgent(m, codec, x, now) == LookupAgent(m', codec, x, now);
    }
    CollectAgree(ids, TrackedLoader(m, codec, now), TrackedLoader(m', codec, now));
  }

  /** Enumeration completeness, one step at a time: creating a fresh agent
      appends exactly that agent to what `list_agents` loads, and leaves the
      other tracked agents as they were (ids are uuid4 strings: no colon). */
  lemma CreateExtendsListing(m: map<string, string>, codec: Codec, now: Timestamp, ids: seq<string>,
                             agentId: string, config: AgentConfig, createdAt: Timestamp)
    requires WellFormed(codec)
    requires ':' !in agentId && agentId !in ids
    requires forall id :: id in ids ==> ':' !in id
    ensures LoadTracked(AfterCreate(m, codec, agentId, config, createdAt, ids + [agentId]), codec, now, ids + [agentId])
            == LoadTracked(m, codec, now, ids) + [Agent(agentId, config, createdAt)]
  {
    var m' := AfterCreate(m, codec, agentId, config, createdAt, ids + [agentId]);
    forall id | id in ids
      ensures Lookup(m, AgentKey(id)) == Lookup(m', AgentKey(id))
      ensures Lookup(m, CreatedAtKey(id)) == Lookup(m', CreatedAtKey(id))
    {
      AgentKeysDistinct(id, agentId);
      AgentKeysDistinct(agentId, id);
    }
    LoadTrackedFrame(m, m', codec, now, ids);
    CollectSnoc(ids, agentId, TrackedLoader(m', codec, now));
    CreateThenGet(m, codec, agentId, config, createdAt, ids + [agentId], now);
  }

  /** The store's map after `delete_agent` removed the agent's two keys. */
  function AfterDelete(m: map<string, string>, agentId: string): map<string, string>
  {
    m - {AgentKey(agentId)} - {CreatedAtKey(agentId)}
  }

  /** After `delete_agent(a)`, `get_agent(a)` fails with not-found and `a`
      is not listed, whatever the id list says. */
  lemma DeleteHidesAgent(m: map<string, string>, codec: Codec, now: Timestamp, ids: seq<string>, agentId: string)
    ensures LookupAgent(AfterDelete(m, agentId), codec, agentId, now) == Failure(AgentNotFound(agentId))
    ensures agentId !in AgentIdsOf(LoadTracked(AfterDelete(m, agentId), codec, now, ids))
  {
    LoadTrackedExact(AfterDelete(m, agentId), codec, now, ids);
    FilterMember(ids, LoadablePred(AfterDelete(m, agentId), codec), agentId);
  }

  /** The accumulated result of `list_agents` and the tracked id list. */
  datatype Listing = Listing(agents: seq<Agent>, trackedIds: seq<string>)

  /** One iteration of the reconciliation pass over `_store.items()`. */
  function ReconcileKey(m: map<string, string>, codec: Codec, now: Timestamp, st: Listing, key: string): Listing
    requires key in m
  {
    if !IsAgentConfigKey(key) then st
    else
      var agentId := key[6..];
      if agentId in AgentIdsOf(st.agents) then st
      else
        match codec.decodeConfig(m[key])
        case None => st
        case Some(config) =>
          Listing(st.agents + [Agent(agentId, config, CreatedAt(m, codec, agentId, now))],
                  if agentId in st.trackedIds then st.trackedIds else st.trackedIds + [agentId])
  }

  /** The reconciliation pass over the keys `keys`, in order. */
  function Reconcile(m: map<string, string>, codec: Codec, now: Timestamp, st: Listing, keys: seq<string>): Listing
    requires forall k :: k in keys ==> k in m
  {
    if keys == [] then st
    else ReconcileKey(m, codec, now, Reconcile(m, codec, now, st, keys[..|keys| - 1]), keys[|keys| - 1])
  }

  /** Reconciliation only appends, to the agents and to the tracked ids. */
  lemma {:induction false} ReconcileGrows(m: map<string, string>, codec: Codec, now: Timestamp, st: Listing, keys: seq<string>)
    requires forall k :: k in keys ==> k in m
    ensures st.agents <= Reconcile(m, codec, now, st, keys).agents
    ensures st.trackedIds <= Reconcile(m, codec, now, st, keys).trackedIds
  {
    if keys != [] {
      ReconcileGrows(m, codec, now, st, keys[..|keys| - 1]);
    }
  }

  /** Self-healing: after the pass every `agent:X` key of the store whose `X`
      has no colon and whose value decodes is listed and tracked, and every
      listed agent is tracked. */
  lemma {:induction false} ReconcileComplete(m: map<string, string>, codec: Codec, now: Timestamp, st: Listing, keys: seq<string>)
    requires forall k :: k in keys ==> k in m
    requires forall a :: a in st.agents ==> a.agentId in st.trackedIds
    ensures forall a :: a in Reconcile(m, codec, now, st, keys).agents ==>
              a.agentId in Reconcile(m, codec, now, st, keys).trackedIds
    ensures forall k :: k in keys && IsAgentConfigKey(k) && codec.decodeConfig(m[k]).Some? ==>
              && k[6..] in AgentIdsOf(Reconcile(m, codec, now, st, keys).agents)
              && k[6..] in Reconcile(m, codec, now, st, keys).trackedIds
  {
    if keys != [] {
      var keys', k := keys[..|keys| - 1], keys[|keys| - 1];
      assert keys == keys' + [k];
      ReconcileComplete(m, codec, now, st, keys');
      var r', r := Reconcile(m, codec, now, st, keys'), Reconcile(m, codec, now, st, keys);
      assert r == ReconcileKey(m, codec, now, r', k);
      assert r'.agents <= r.agents && r'.trackedIds <= r.trackedIds;
      forall k0 | k0 in keys && IsAgentConfigKey(k0) && codec.decodeConfig(m[k0]).Some?
        ensures k0[6..] in AgentIdsOf(r.agents) && k0[6..] in r.trackedIds
      {
        if k0 in keys' {
          var i :| 0 <= i < |r'.agents| && AgentIdsOf(r'.agents)[i] == k0[6..];
          assert AgentIdsOf(r.agents)[i] == k0[6..];
        } else {
          assert k0 == k;
          var id := k[6..];
          if id in AgentIdsOf(r'.agents) {
            var i :| 0 <= i < |r'.agents| && AgentIdsOf(r'.agents)[i] == id;
            assert r'.agents[i] in r'.agents;
          } else {
            AgentIdsOfSnoc(r'.agents, r.agents[|r.agents| - 1]);
          }
        }
      }
    }
  }

  /** No id is added twice: every agent the pass appends has an id different
      from every agent before it. */
  lemma {:induction false} ReconcileFresh(m: map<string, string>, codec: Codec, now: Timestamp, st: Listing, keys: seq<string>)
    requires forall k :: k in keys ==> k in m
    ensures forall i, j :: 0 <= i < j < |Reconcile(m, codec, now, st, keys).agents| && |st.agents| <= j ==>
              Reconcile(m, codec, now, st, keys).agents[i].agentId != Reconcile(m, codec, now, st, keys).agents[j].agentId
  {
    if keys != [] {
      var keys', k := keys[..|keys| - 1], keys[|keys| - 1];
      ReconcileFresh(m, codec, now, st, keys');
      ReconcileGrows(m, codec, now, st, keys');
      var r', r := Reconcile(m, codec, now, st, keys'), Reconcile(m, codec, now, st, keys);
      if |r.agents| != |r'.agents| {
        var id := k[6..];
        assert r.agents == r'.agents + [r.agents[|r'.agents|]];
        assert id !in AgentIdsOf(r'.agents);
        forall i | 0 <= i < |r'.agents|
          ensures r.agents[i].agentId != id
        {
          assert AgentIdsOf(r'.agents)[i] == r'.agents[i].agentId;
        }
      }
    }
  }

  /** Every agent the pass adds is what `get_agent` returns for its id. */
  lemma {:induction false} ReconcileSound(m: map<string, string>, codec: Codec, now: Timestamp, st: Listing, keys: seq<string>)
    requires WellFormed(codec)
    requires forall k :: k in keys ==> k in m
    ensures forall j :: |st.agents| <= j < |Reconcile(m, codec, now, st, keys).agents| ==>
              var a := Reconcile(m, codec, now, st, keys).agents[j];
              ':' !in a.agentId && LookupAgent(m, codec, a.agentId, now) == Success(a)
  {
    if keys != [] {
      var keys', k := keys[..|keys| - 1], keys[|keys| - 1];
      ReconcileSound(m, codec, now, st, keys');
      ReconcileGrows(m, codec, now, st, keys');
      var r', r := Reconcile(m, codec, now, st, keys'), Reconcile(m, codec, now, st, keys);
      if |r.agents| != |r'.agents| {
        var id := k[6..];
        AgentConfigKeyShape(id, k);
        assert m[k] != "";
      }
    }
  }

  /** `list_agents` on the in-memory backend: the tracked agents that load
      come first, in tracked order; then every `agent:X` key of the store
      with a colon-free `X` and a decodable value is listed and tracked, each
      listed agent is tracked, and a reconciled agent is one `get_agent`
      returns and is listed once. */
  lemma ListingHealed(m: map<string, string>, codec: Codec, now: Timestamp, ids: seq<string>, keys: seq<string>)
    requires WellFormed(codec)
    requires forall k :: k in keys ==> k in m
    ensures var tracked := LoadTracked(m, codec, now, ids);
            var r := Reconcile(m, codec, now, Listing(tracked, ids), keys);
            && tracked <= r.agents
            && ids <= r.trackedIds
            && (forall a :: a in r.agents ==> a.agentId in r.trackedIds)
            && (forall k :: k in keys && IsAgentConfigKey(k) && codec.decodeConfig(m[k]).Some? ==>
                  k[6..] in AgentIdsOf(r.agents) && k[6..] in r.trackedIds)
            && (forall j :: |tracked| <= j < |r.agents| ==> LookupAgent(m, codec, r.agents[j].agentId, now) == Success(r.agents[j]))
            && (forall i, j :: 0 <= i < j < |r.agents| && |tracked| <= j ==> r.agents[i].agentId != r.agents[j].agentId)
  {
    var tracked := LoadTracked(m, codec, now, ids);
    var st := Listing(tracked, ids);
    LoadTrackedExact(m, codec, now, ids);
    forall a | a in tracked
      ensures a.agentId in ids
    {
      var i :| 0 <= i < |tracked| && tracked[i] == a;
      assert AgentIdsOf(tracked)[i] == a.agentId;
    }
    ReconcileGrows(m, codec, now, st, keys);
    ReconcileComplete(m, codec, now, st, keys);
    ReconcileSound(m, codec, now, st, keys);
    ReconcileFresh(m, codec, now, st, keys);
  }

  /** A stored record as `list_agent_sessions` reads it: the in-memory
      branch decodes any value, the other branch skips empty ones first. */
  function ReadRecord<T>(value: string, durable: bool, decode: string -> Option<T>): Option<T>
  {
    if durable && value == "" then None else decode(value)
  }

  function TurnLoader(m: map<string, string>, codec: Codec, agentId: string, sessionId: string, durable: bool): string -> Option<Turn>
  {
    key => if key in m && IsTurnKeyOf(key, agentId, sessionId) then ReadRecord(m[key], durable, codec.decodeTurn) else None
  }

  /** The turns `list_agent_sessions` gathers for one session. */
  function SessionTurns(m: map<string, string>, codec: Codec, keys: seq<string>,
                        agentId: string, sessionId: string, durable: bool): seq<Turn>
  {
    Collect(keys, TurnLoader(m, codec, agentId, sessionId, durable))
  }

  function SessionOf(info: SessionInfo, turns: seq<Turn>): Session
  {
    Session(info.sessionId, info.sessionName, turns, info.startedAt)
  }

  function SessionLoader(m: map<string, string>, codec: Codec, keys: seq<string>, agentId: string, durable: bool): string -> Option<Session>
  {
    key =>
      if key in m && IsSessionKeyOf(key, agentId) then
        match ReadRecord(m[key], durable, codec.decodeSession)
        case None => None
        case Some(info) => Some(SessionOf(info, SessionTurns(m, codec, keys, agentId, LastSegment(key), durable)))
      else None
  }

  /** The sessions `list_agent_sessions` returns. */
  function AgentSessions(m: map<string, string>, codec: Codec, keys: seq<string>, agentId: string, durable: bool): seq<Session>
  {
    Collect(keys, SessionLoader(m, codec, keys, agentId, durable))
  }

  /** A session's turns come exactly from the keys that start with
      `session:{a}:{s}:` and have three colons, and whose value decodes. */
  lemma SessionTurnsExact(m: map<string, string>, codec: Codec, keys: seq<string>,
                          agentId: string, sessionId: string, durable: bool, t: Turn)
    ensures t in SessionTurns(m, codec, keys, agentId, sessionId, durable) <==>
            exists k :: k in keys && k in m && IsTurnKeyOf(k, agentId, sessionId) &&
                        ReadRecord(m[k], durable, codec.decodeTurn) == Some(t)
  {
    CollectMember(keys, TurnLoader(m, codec, agentId, sessionId, durable), t);
  }

  /** The sessions come exactly from the keys that start with `session:{a}:`
      and have two colons, and whose value decodes; each carries the turns
      stored under the session id its key ends with. */
  lemma AgentSessionsExact(m: map<string, string>, codec: Codec, keys: seq<string>,
                           agentId: string, durable: bool, s: Session)
    ensures s in AgentSessions(m, codec, keys, agentId, durable) <==>
            exists k :: k in keys && k in m && IsSessionKeyOf(k, agentId) &&
                        ReadRecord(m[k], durable, codec.decodeSession).Some? &&
                        s == SessionOf(ReadRecord(m[k], durable, codec.decodeSession).value,
                                       SessionTurns(m, codec, keys, agentId, LastSegment(k), durable))
  {
    CollectMember(keys, SessionLoader(m, codec, keys, agentId, durable), s);
  }

  /** The in-memory branch (decode every value) and the durable branch (skip
      empty values, then decode) of `list_agent_sessions` agree, since an
      empty string never decodes. */
  lemma SessionBranchesAgree(m: map<string, string>, codec: Codec, keys: seq<string>, agentId: string)
    requires WellFormed(codec)
    ensures AgentSessions(m, codec, keys, agentId, true) == AgentSessions(m, codec, keys, agentId, false)
  {
    forall k | k in keys
      ensures SessionLoader(m, codec, keys, agentId, true)(k) == SessionLoader(m, codec, keys, agentId, false)(k)
    {
      var sid := LastSegment(k);
      forall k' | k' in keys
        ensures TurnLoader(m, codec, agentId, sid, true)(k') == TurnLoader(m, codec, agentId, sid, false)(k')
      {
      }
      CollectAgree(keys, TurnLoader(m, codec, agentId, sid, true), TurnLoader(m, codec, agentId, sid, false));
    }
    CollectAgree(keys, SessionLoader(m, codec, keys, agentId, true), SessionLoader(m, codec, keys, agentId, false));
  }

  function TurnIdIn(turnIds: seq<string>): Turn -> bool
  {
    (t: Turn) => t.turnId in turnIds
  }

  /** `get_agents_session`'s turn filter: `None` or an empty list keeps every
      turn, otherwise `[turn for turn in turns if turn.turn_id in turn_ids]`. */
  function SelectTurns(turns: seq<Turn>, turnIds: Option<seq<string>>): seq<Turn>
  {
    if turnIds.None? || turnIds.value == [] then turns else Filter(turns, TurnIdIn(turnIds.value))
  }

  /** A non-empty filter keeps, in order, exactly the turns whose id it names. */
  lemma SelectTurnsExact(turns: seq<Turn>, turnIds: seq<string>, t: Turn)
    requires turnIds != []
    ensures t in SelectTurns(turns, Some(turnIds)) <==> t in turns && t.turnId in turnIds
    ensures IsSubsequence(SelectTurns(turns, Some(turnIds)), turns)
  {
    FilterMember(turns, TurnIdIn(turnIds), t);
    FilterIsSubsequence(turns, TurnIdIn(turnIds));
  }

  /** No filter, an empty filter, and a filter naming the id of every turn
      all give every turn. */
  lemma SelectAllTurns(turns: seq<Turn>, turnIds: Option<seq<string>>)
    requires turnIds.Some? && turnIds.value != [] ==> forall i :: 0 <= i < |turns| ==> turns[i].turnId in turnIds.value
    ensures SelectTurns(turns, turnIds) == turns
  {
    if turnIds.Some? && turnIds.value != [] {
      FilterKeepsAll(turns, TurnIdIn(turnIds.value));
    }
  }
}
