# Agent registry over a key-value store

A Dafny model of two parts of llama-stack, with proofs about them. The first
is the in-memory key-value store `InmemoryKVStoreImpl` and the backend factory
`kvstore_impl`. The second is the meta-reference agent registry
`MetaReferenceAgentsImpl`, which lays a key namespace over that store:

- `agent:{id}` holds an agent's configuration;
- `agent:{id}:created_at` holds its creation time;
- `agent_ids` holds the list of tracked ids;
- `session:{agent}:{session}` holds a session's metadata;
- `session:{agent}:{session}:{turn}` holds one turn.

Modules, one per file:

- `Wrappers` (wrappers.dfy): `Option` and `Result`.
- `Seqs` (seqs.dfy): list comprehensions with a condition (`Filter`), loops that
  append what they could load and skip the rest (`Collect`), and
  `list.remove` (`RemoveFirst`), with their lemmas.
- `KVStore` (kvstore.dfy): the store as a class whose fields are a map and
  the dict's insertion order. Python's string `<` is written out as
  `StrLess`. The factory is a dispatch over the `KVStoreType` tags.
- `AgentKeys` (agent_keys.dfy): the key namespace. It counts colons and
  recovers a session id as the text after the last colon.
- `AgentTypes` (agent_types.dfy): the records, the error kinds, and
  `Codec`. `Codec` is the serialisation (JSON and pydantic for records,
  ISO-8601 for times), given as functions. `WellFormed(codec)` states its
  round-trip law: decoding an encoded value gives it back, and the empty
  string never decodes.
- `AgentSpec` (agent_spec.dfy): what each registry operation computes, as
  functions of the store's map and order, with the registry's promises
  proved as lemmas.
- `Agents` (agents.dfy): the registry as a class. It holds the persistence
  store and the tracked id list. Its methods read and write the same keys in
  the same order and run the same loops as the source. The session listing
  reads values from a snapshot of the map rather than calling `get` per key,
  which gives the same values because nothing writes in between. Each method is proved equal to its
  `AgentSpec` function, or states the new store and id list outright.

Inputs the registry cannot compute become parameters:

- the uuid drawn by `create_agent`;
- the clock reading (`now`);
- what the agent's own storage returns for session info, session turns and
  a single turn (`sessionInfo`, `storedTurns`, `storedTurn`);
- the id of a session created by the agent.

`kvstore_impl` has no in-memory arm. `KVStoreImpl`'s contract shows that no
tag yields `InmemoryKVStoreImpl`. So the two `isinstance` branches in
`list_agents` and `list_agent_sessions` run only when a caller installs an
in-memory store directly. The registry's `backend` field records which
backend the store stands for, and the `InMemoryBackend()` branch depends on
that field alone.

## Model

| member | source | states |
|---|---|---|
| KVStore.InmemoryKVStore.constructor | llama_stack/providers/utils/kvstore/kvstore.py:18-19 | a new store is empty and consistent |
| KVStore.InmemoryKVStore.Get | llama_stack/providers/utils/kvstore/kvstore.py:24-25 | returns the stored value exactly when the key is in the map, which in a consistent store is exactly when it is in the enumeration order |
| KVStore.InmemoryKVStore.Set | llama_stack/providers/utils/kvstore/kvstore.py:27-28 | afterwards `get(key)` is the value and every other key reads as before; an overwritten key keeps the key set and the order, a new key goes last |
| KVStore.InmemoryKVStore.Delete | llama_stack/providers/utils/kvstore/kvstore.py:30-32 | afterwards `get(key)` is None and every other key reads as before; the key leaves the order; an absent key changes nothing, so deleting twice is deleting once |
| KVStore.InmemoryKVStore.Range | llama_stack/providers/utils/kvstore/kvstore.py:34-35 | the result is the values, one per key, of the keys `RangeKeys` selects, in the same order |
| KVStore.RangeKeysExact | llama_stack/providers/utils/kvstore/kvstore.py:34-35 | a key is visited by `range` if and only if it is stored and `start <= key < end` |
| KVStore.RangeKeysOrdered | llama_stack/providers/utils/kvstore/kvstore.py:35 | `range` visits each key once, in enumeration order |
| KVStore.RangeBounds | llama_stack/providers/utils/kvstore/kvstore.py:35 | the end key is never included; a stored start key below the end is |
| KVStore.RangeEmpty | llama_stack/providers/utils/kvstore/kvstore.py:35 | a range whose end is not above its start is empty |
| KVStore.InmemoryKVStore.ListKeys | llama_stack/providers/utils/kvstore/kvstore.py:37-40 | `PrefixKeys(order, prefix)`: with no prefix the whole enumeration order, otherwise only keys of the order that start with the prefix; `ListKeysExact` gives the exact characterisation |
| KVStore.ListKeysExact | llama_stack/providers/utils/kvstore/kvstore.py:37-40 | with no prefix: every stored key exactly once; with a prefix: exactly the stored keys starting with it, once each, in enumeration order |
| KVStore.OverwriteKeepsOrder | llama_stack/providers/utils/kvstore/kvstore.py:28 | writing a present key keeps the key set and the enumeration order |
| KVStore.StrLessIrreflexive | llama_stack/providers/utils/kvstore/kvstore.py:35 | no string compares below itself |
| KVStore.StrLessTransitive | llama_stack/providers/utils/kvstore/kvstore.py:35 | string `<` is transitive |
| KVStore.StrLessTotal | llama_stack/providers/utils/kvstore/kvstore.py:35 | any two strings are equal or ordered one way |
| KVStore.StrLessAsymmetric | llama_stack/providers/utils/kvstore/kvstore.py:35 | string `<` never holds both ways |
| KVStore.KVStoreImpl | llama_stack/providers/utils/kvstore/kvstore.py:43-61 | succeeds if and only if the tag is one of the four `KVStoreType` values; never yields the in-memory store; an unknown tag fails with `Unknown kvstore type {tag}` |
| KVStore.KVStoreImplSelects | llama_stack/providers/utils/kvstore/kvstore.py:44-59 | every tag selects a backend, and different tags select different backends |
| Seqs.RemoveFirst | llama_stack/providers/inline/agents/meta_reference/agents.py:270 | `list.remove`: one element fewer, the multiset loses one copy of `x`, and the elements before its first occurrence stay put while the rest shift down by one |
| Seqs.RemoveFirstNoDup | llama_stack/providers/inline/agents/meta_reference/agents.py:270 | on a list without duplicates, the removed id is gone and no duplicate appears |
| AgentKeys.AgentKeysDistinct | llama_stack/providers/inline/agents/meta_reference/agents.py:97-115 | `agent:{a}`, `agent:{b}:created_at` and `agent_ids` never coincide for colon-free ids, and each key determines its id |
| AgentKeys.AgentKeysOutsideSessions | llama_stack/providers/inline/agents/meta_reference/agents.py:265-266 | no agent key and not `agent_ids` starts with `session:` |
| AgentKeys.AgentConfigKeyShape | llama_stack/providers/inline/agents/meta_reference/agents.py:318-319 | `agent:{id}` passes the reconciliation test if and only if `id` has no colon; a key that passes is `agent:{key[6:]}`; a `created_at` key never passes |
| AgentKeys.LastSegmentAfterColon | llama_stack/providers/inline/agents/meta_reference/agents.py:408 | `split(":")[-1]` of `p:x` is `x` for a colon-free `x` |
| AgentKeys.SessionKeyRoundTrip | llama_stack/providers/inline/agents/meta_reference/agents.py:407-408 | a session key built from colon-free ids is recognised as the agent's session key, and its last segment is the session id |
| AgentKeys.TurnKeyRoundTrip | llama_stack/providers/inline/agents/meta_reference/agents.py:417 | a turn key built from colon-free ids is recognised as a turn key of the session, and never as a session key |
| AgentKeys.SessionPrefixColons | llama_stack/providers/inline/agents/meta_reference/agents.py:407 | a key under `session:{a}:` has two colons plus those of `a` and of the rest |
| AgentKeys.SessionKeyShape | llama_stack/providers/inline/agents/meta_reference/agents.py:407-408 | a key recognised as a session key of `a` is exactly `session:{a}:{s}`, with `a` and `s` colon-free and `s` its last segment |
| AgentKeys.SessionKeyOwner | llama_stack/providers/inline/agents/meta_reference/agents.py:407 | a key is a session key of at most one agent |
| AgentKeys.TurnKeyShape | llama_stack/providers/inline/agents/meta_reference/agents.py:417 | a turn key is never a session key, and its agent, session and turn segments are colon-free |
| AgentSpec.LookupAgent | llama_stack/providers/inline/agents/meta_reference/agents.py:366-386 | succeeds if and only if the configuration record is non-empty and decodes; a missing or empty record is not-found; on success it returns the requested id, the decoded configuration and the stored creation time, or `now` |
| AgentSpec.ResolveAgent | llama_stack/providers/inline/agents/meta_reference/agents.py:121-150 | fails with not-found exactly when the record is missing or empty, and with invalid-config when it does not decode; on success the agent gets the persistence store if and only if `enable_session_persistence`, otherwise the in-memory store |
| AgentSpec.CreateThenGet | llama_stack/providers/inline/agents/meta_reference/agents.py:97-106 | what `create_agent` stores, `get_agent` returns, with the stored creation time |
| AgentSpec.RestartRestoresIds | llama_stack/providers/inline/agents/meta_reference/agents.py:82-88 | `initialize` after `create_agent` restores the id list `create_agent` wrote |
| AgentSpec.LoadTrackedExact | llama_stack/providers/inline/agents/meta_reference/agents.py:289-313 | without reconciliation the listed ids are, in tracked order, exactly the tracked ids whose record exists and decodes; each listed agent is what `get_agent` returns |
| AgentSpec.LoadTrackedFrame | llama_stack/providers/inline/agents/meta_reference/agents.py:291-297 | loading the tracked agents reads only their two agent keys |
| AgentSpec.CreateExtendsListing | llama_stack/providers/inline/agents/meta_reference/agents.py:94-115 | creating a fresh agent appends exactly that agent to the tracked listing and leaves the others as they were |
| AgentSpec.DeleteHidesAgent | llama_stack/providers/inline/agents/meta_reference/agents.py:264-266 | after the agent's keys are deleted, `get_agent` reports not-found and the tracked listing omits it |
| AgentSpec.ReconcileGrows | llama_stack/providers/inline/agents/meta_reference/agents.py:317-348 | reconciliation only appends, to the result and to the tracked ids |
| AgentSpec.ReconcileComplete | llama_stack/providers/inline/agents/meta_reference/agents.py:317-348 | after the pass, every `agent:X` key with a colon-free `X` and a decodable value is listed and tracked, and every listed agent is tracked |
| AgentSpec.ReconcileFresh | llama_stack/providers/inline/agents/meta_reference/agents.py:321-323 | the pass never lists an id twice |
| AgentSpec.ReconcileSound | llama_stack/providers/inline/agents/meta_reference/agents.py:325-344 | every agent the pass adds has a colon-free id and is what `get_agent` returns for it |
| AgentSpec.ListingHealed | llama_stack/providers/inline/agents/meta_reference/agents.py:286-356 | the healed listing starts with the tracked listing, keeps the old tracked ids first, lists and tracks every decodable agent key, tracks every listed agent, and adds only loadable agents that are not yet listed |
| AgentSpec.SessionTurnsExact | llama_stack/providers/inline/agents/meta_reference/agents.py:416-423 | a session's turns come exactly from the keys that start with `session:{a}:{s}:`, have three colons and hold a decodable turn |
| AgentSpec.AgentSessionsExact | llama_stack/providers/inline/agents/meta_reference/agents.py:406-434 | the sessions come exactly from the keys that start with `session:{a}:`, have two colons and hold decodable info; each session carries the turns stored under its key's last segment |
| AgentSpec.SessionBranchesAgree | llama_stack/providers/inline/agents/meta_reference/agents.py:405-472 | the in-memory branch and the `list_keys` branch return the same sessions |
| AgentSpec.SelectTurnsExact | llama_stack/providers/inline/agents/meta_reference/agents.py:252-253 | a non-empty filter keeps exactly the turns whose id it names, in their order |
| AgentSpec.SelectAllTurns | llama_stack/providers/inline/agents/meta_reference/agents.py:252-253 | a filter naming every turn's id, an empty filter and no filter all give every turn |
| Agents.MetaReferenceAgents.constructor | llama_stack/providers/inline/agents/meta_reference/agents.py:68-72 | the registry starts with no tracked ids |
| Agents.MetaReferenceAgents.InMemoryBackend | llama_stack/providers/inline/agents/meta_reference/agents.py:316 | the `isinstance` test; an in-memory backend is never one `kvstore_impl` returns for any tag |
| Agents.MetaReferenceAgents.Initialize | llama_stack/providers/inline/agents/meta_reference/agents.py:74-88 | the tracked list becomes the decoded `agent_ids` when that value is non-empty and decodes, and empty when it does not decode; without a value it is unchanged |
| Agents.MetaReferenceAgents.LoadCreatedAt | llama_stack/providers/inline/agents/meta_reference/agents.py:374-380 | the stored creation time when present and parseable, otherwise `now` |
| Agents.MetaReferenceAgents.CreateAgent | llama_stack/providers/inline/agents/meta_reference/agents.py:94-115 | stores the encoded configuration and time under the agent's keys, appends the id last to the tracked list, and writes the encoded list to `agent_ids`; `get_agent` then returns the new agent |
| Agents.MetaReferenceAgents.GetAgentImpl | llama_stack/providers/inline/agents/meta_reference/agents.py:121-150 | returns `ResolveAgent` of the current store |
| Agents.MetaReferenceAgents.GetAgent | llama_stack/providers/inline/agents/meta_reference/agents.py:360-386 | returns `LookupAgent` of the current store |
| Agents.MetaReferenceAgents.DeleteAgent | llama_stack/providers/inline/agents/meta_reference/agents.py:264-276 | removes both agent keys from the map and the order; a tracked id loses its first occurrence and `agent_ids` is rewritten, keeping its place in the order; an untracked id leaves the list and `agent_ids` alone; no `session:` key changes; `get_agent` then reports not-found |
| Agents.MetaReferenceAgents.DeleteAgentsSession | llama_stack/providers/inline/agents/meta_reference/agents.py:261-262 | removes only `session:{a}:{s}`; its turn keys survive |
| Agents.MetaReferenceAgents.ListAgents | llama_stack/providers/inline/agents/meta_reference/agents.py:281-358 | on durable backends: the tracked listing, with the list and store unchanged; on the in-memory backend: the reconciled listing and tracked ids, with `agent_ids` rewritten to the encoded list |
| Agents.MetaReferenceAgents.LoadSessionTurns | llama_stack/providers/inline/agents/meta_reference/agents.py:416-423 | the loop gathers `SessionTurns` |
| Agents.MetaReferenceAgents.ListAgentSessions | llama_stack/providers/inline/agents/meta_reference/agents.py:388-474 | fails, with not-found, if and only if the agent's record is missing or empty; otherwise returns `AgentSessions` for the backend's branch |
| Agents.MetaReferenceAgents.GetAgentsSession | llama_stack/providers/inline/agents/meta_reference/agents.py:241-259 | passes on the lookup's error; missing session info is session-not-found; otherwise the session has the requested id, the stored name and start time, and the filtered turns |
| Agents.MetaReferenceAgents.GetAgentsTurn | llama_stack/providers/inline/agents/meta_reference/agents.py:229-232 | passes on the lookup's error, otherwise returns what the agent's storage returned |
| Agents.MetaReferenceAgents.GetAgentsStep | llama_stack/providers/inline/agents/meta_reference/agents.py:234-239 | returns the first step with the requested id; fails with step-not-found if and only if no step has it |
| Agents.MetaReferenceAgents.CreateAgentSession | llama_stack/providers/inline/agents/meta_reference/agents.py:152-162 | succeeds if and only if the agent loads, with the session id the agent created |
| Agents.MetaReferenceAgents.CreateAgentTurn | llama_stack/providers/inline/agents/meta_reference/agents.py:164-191 | fails with not-implemented if and only if `stream` is false; otherwise returns a stream for a request with `stream` set |
| Agents.MetaReferenceAgents.ResumeAgentTurn | llama_stack/providers/inline/agents/meta_reference/agents.py:201-219 | fails with not-implemented if and only if `stream` is false; otherwise returns a stream for the caller's request |

## Left out

- The Redis, SQLite, Postgres and MongoDB backends share the in-memory store's map-plus-order model. Their own semantics (SQL `range` and `LIKE` prefix matching, enumeration order) are not part of this model. `kvstore_impl` keeps only the tag dispatch, not backend construction or `initialize`.
- The tag strings `redis`, `sqlite`, `postgres` and `mongodb` are assumed. The `KVStoreType` definition (config.py) is not part of this model.
- `kvstore_dependencies` and the no-op `InmemoryKVStoreImpl.initialize` are left out; neither has behaviour to model.
- Async execution and concurrency are left out. Every method is one sequential step, so the race in which two concurrent writers lose an update to `agent_ids` is not modelled.
- `uuid.uuid4` and `datetime.now` become parameters. JSON, pydantic validation and `fromisoformat` become `Codec` functions, so their concrete formats are not modelled.
- LookupAgent: `get_agent` lets a JSON or validation error propagate. Here it is the error kind `AgentConfigInvalid`.
- ResolveAgent: the two raise sites (JSON decode and validation) become one error kind. Error messages become error kinds throughout, except `kvstore_impl`'s.
- Initialize: `json.loads` yielding something other than a list of strings is taken as a failed decode.
- ListAgents: the clock is read once per call rather than once per agent.
- `_get_agent_impl` builds a `ChatAgent` with API handles and a temp dir. The model keeps only the id, the configuration and which store the agent gets. The registry's second in-memory store object is therefore not modelled.
- GetAgentsSession, GetAgentsTurn and GetAgentsStep: `get_session_info`, `get_session_turns` and `get_session_turn` of the agent's storage are inputs. That storage (persistence.py) is not part of this model.
- ListAgentSessions: both branches take the keys from `ListKeys(None)` and read values from the map snapshot. The source's in-memory branch walks `_store.items()` instead, and its other branch calls `get` once per session and turn key. The individual store calls are therefore not modelled; the keys, their order and the values read are the same.
- GetAgentsStep: a missing turn makes the source dereference `None`. Here it is `TurnNotFound`.
- CreateAgentSession: the writes `create_session` makes (agent_instance.py) are not part of this model. Only the agent lookup and the returned id are.
- CreateAgentTurn and ResumeAgentTurn: the optional `stream` argument (default `False`, possibly `None`) is a plain boolean, where `false` stands for every falsy value.
- CreateAgentTurn and ResumeAgentTurn: the streams are only delegates. Turn execution and suspend/resume live in agent_instance.py, which is not part of this model. The agent lookup a stream performs when it starts is not modelled.
- The `bwrap` check, `tempfile.mkdtemp`, logging and `shutdown` are left out: they are environment and I/O only.
