/** The key namespace the agent registry lays over the flat store:

      agent:{agent_id}                          the agent's configuration
      agent:{agent_id}:created_at               its creation time
      agent_ids                                 the list of tracked agent ids
      session:{agent_id}:{session_id}           a session's metadata
      session:{agent_id}:{session_id}:{turn_id} one turn of that session

    Session and turn keys are told apart by counting colons, and a session id
    is recovered as the text after the last colon. */
module AgentKeys {

  const AgentIdsKey: string := "agent_ids"

  function AgentKey(agentId: string): string
  {
    "agent:" + agentId
  }

  function CreatedAtKey(agentId: string): string
  {
    "agent:" + agentId + ":created_at"
  }

  function SessionPrefix(agentId: string): string
  {
    "session:" + agentId + ":"
  }

  function SessionKey(agentId: string, sessionId: string): string
  {
    SessionPrefix(agentId) + sessionId
  }

  function TurnPrefix(agentId: string, sessionId: string): string
  {
    SessionKey(agentId, sessionId) + ":"
  }

  function TurnKey(agentId: string, sessionId: string, turnId: string): string
  {
    TurnPrefix(agentId, sessionId) + turnId
  }

  /** `s.count(":")` */
  function ColonCount(s: string): nat
  {
    multiset(s)[':']
  }

  /** `s.split(":")[-1]`: the text after the last colon (all of `s` when it
      has none). */
  function LastSegment(s: string): string
  {
    if s == [] || s[|s| - 1] == ':' then []
    else LastSegment(s[..|s| - 1]) + [s[|s| - 1]]
  }

  /** The keys `list_agents` reconciles: `key.startswith("agent:")`,
      `key != "agent_ids"` and no colon in `key[6:]`. */
  predicate IsAgentConfigKey(key: string)
  {
    "agent:" <= key && key != AgentIdsKey && ':' !in key[6..]
  }

  /** A session key of agent `agentId` as `list_agent_sessions` recognises
      one: it starts with `session:{agentId}:` and has exactly two colons. */
  predicate IsSessionKeyOf(key: string, agentId: string)
  {
    SessionPrefix(agentId) <= key && ColonCount(key) == 2
  }

  /** A turn key of session `sessionId`: it starts with
      `session:{agentId}:{sessionId}:` and has exactly three colons. */
  predicate IsTurnKeyOf(key: string, agentId: string, sessionId: string)
  {
    TurnPrefix(agentId, sessionId) <= key && ColonCount(key) == 3
  }

  lemma {:induction false} LastSegmentAfterColon(p: string, x: string)
    requires ':' !in x
    ensures LastSegment(p + ":" + x) == x
  {
    if x == [] {
      assert p + ":" + x == p + ":";
    } else {
      var x' := x[..|x| - 1];
      assert p + ":" + x == (p + ":" + x') + [x[|x| - 1]];
      assert (p + ":" + x)[..|p + ":" + x| - 1] == p + ":" + x';
      LastSegmentAfterColon(p, x');
      assert x == x' + [x[|x| - 1]];
    }
  }

  lemma ColonCountConcat(x: string, y: string)
    ensures ColonCount(x + y) == ColonCount(x) + ColonCount(y)
    ensures ColonCount(x) == 0 <==> ':' !in x
    ensures ColonCount("session:") == 1 && ColonCount(":") == 1
  {
  }

  /** The three agent keys never coincide, as long as ids have no colon
      (uuid4 strings have none). */
  lemma AgentKeysDistinct(a: string, b: string)
    ensures AgentKey(a) != AgentIdsKey && CreatedAtKey(a) != AgentIdsKey
    ensures ':' !in a ==> AgentKey(a) != CreatedAtKey(b)
    ensures AgentKey(a) == AgentKey(b) ==> a == b
    ensures CreatedAtKey(a) == CreatedAtKey(b) ==> a == b
  {
    assert AgentKey(a)[5] == ':' && AgentIdsKey[5] == '_';
    assert CreatedAtKey(a)[5] == ':';
    if ':' !in a && |AgentKey(a)| == |CreatedAtKey(b)| {
      assert CreatedAtKey(b)[6 + |b|] == ':';
      assert AgentKey(a)[6 + |b|] == a[|b|];
    }
    if AgentKey(a) == AgentKey(b) {
      assert a == AgentKey(a)[6..];
    }
    if CreatedAtKey(a) == CreatedAtKey(b) {
      assert |a| == |b|;
      assert a == CreatedAtKey(a)[6..6 + |a|];
    }
  }

  /** Agent keys and the agent-id list live outside the session namespace,
      so deleting an agent can never touch a session or turn key. */
  lemma AgentKeysOutsideSessions(a: string, key: string)
    requires "session:" <= key
    ensures key != AgentKey(a) && key != CreatedAtKey(a) && key != AgentIdsKey
  {
    assert key[0] == 's';
    assert AgentKey(a)[0] == 'a' && CreatedAtKey(a)[0] == 'a';
  }

  /** `agent:{id}` is reconciled as agent `id` exactly when `id` has no colon,
      and a reconciled key is the configuration key of `key[6:]`. */
  lemma AgentConfigKeyShape(agentId: string, key: string)
    ensures IsAgentConfigKey(AgentKey(agentId)) <==> ':' !in agentId
    ensures AgentKey(agentId)[6..] == agentId
    ensures IsAgentConfigKey(key) ==> key == AgentKey(key[6..])
    ensures !IsAgentConfigKey(CreatedAtKey(agentId))
  {
    AgentKeysDistinct(agentId, agentId);
    assert AgentKey(agentId)[6..] == agentId;
    if IsAgentConfigKey(key) {
      assert key == key[..6] + key[6..];
    }
    assert CreatedAtKey(agentId)[6..] == agentId + ":created_at";
    assert (agentId + ":created_at")[|agentId|] == ':';
  }

  /** The session keys the registry writes are recognised as such when ids
      have no colon, and the session id read back is the one written. */
  lemma SessionKeyRoundTrip(a: string, s: string)
    requires ':' !in a && ':' !in s
    ensures IsSessionKeyOf(SessionKey(a, s), a)
    ensures LastSegment(SessionKey(a, s)) == s
  {
    var sk := SessionKey(a, s);
    SessionPrefixColons(sk, a);
    assert sk[|SessionPrefix(a)|..] == s;
    ColonCountConcat(a, s);
    assert sk == ("session:" + a) + ":" + s;
    LastSegmentAfterColon("session:" + a, s);
  }

  /** Likewise turn keys, which are never taken for session keys. */
  lemma TurnKeyRoundTrip(a: string, s: string, t: string)
    requires ':' !in a && ':' !in s && ':' !in t
    ensures IsTurnKeyOf(TurnKey(a, s, t), a, s)
    ensures !IsSessionKeyOf(TurnKey(a, s, t), a)
  {
    var tk := TurnKey(a, s, t);
    assert TurnPrefix(a, s) <= tk;
    SessionPrefixColons(tk, a);
    assert tk[|SessionPrefix(a)|..] == s + (":" + t);
    ColonCountConcat(s, ":" + t);
    ColonCountConcat(":", t);
    ColonCountConcat(a, s);
  }

  /** The colons of a key that starts with `session:{a}:`. */
  lemma SessionPrefixColons(key: string, a: string)
    requires SessionPrefix(a) <= key
    ensures key == SessionPrefix(a) + key[|SessionPrefix(a)|..]
    ensures ColonCount(key) == 2 + ColonCount(a) + ColonCount(key[|SessionPrefix(a)|..])
  {
    var rest := key[|SessionPrefix(a)|..];
    assert key == SessionPrefix(a) + rest;
    ColonCountConcat("session:", a);
    ColonCountConcat("session:" + a, ":");
    ColonCountConcat(SessionPrefix(a), rest);
  }

  /** What `list_agent_sessions` recognises as a session key of `a` is
      precisely `session:{a}:{s}` with colon-free `a` and `s`, where `s` is
      the id that `key.split(":")[-1]` recovers. */
  lemma SessionKeyShape(key: string, a: string)
    requires IsSessionKeyOf(key, a)
    ensures ':' !in a && ':' !in LastSegment(key)
    ensures key == SessionKey(a, LastSegment(key))
  {
    var rest := key[|SessionPrefix(a)|..];
    SessionPrefixColons(key, a);
    ColonCountConcat(a, rest);
    ColonCountConcat(rest, a);
    assert key == ("session:" + a) + ":" + rest;
    LastSegmentAfterColon("session:" + a, rest);
  }

  /** A key is a session key of one agent at most. */
  lemma SessionKeyOwner(key: string, a: string, b: string)
    requires IsSessionKeyOf(key, a) && IsSessionKeyOf(key, b)
    ensures a == b
  {
    SessionKeyShape(key, a);
    SessionKeyShape(key, b);
    assert a == key[8..8 + |a|] == b;
  }

  /** A turn key is never a session key, and its agent and session segments
      are colon-free. */
  lemma TurnKeyShape(key: string, a: string, s: string, b: string)
    requires IsTurnKeyOf(key, a, s)
    ensures !IsSessionKeyOf(key, b)
    ensures ':' !in a && ':' !in s && ':' !in key[|TurnPrefix(a, s)|..]
  {
    var rest := key[|TurnPrefix(a, s)|..];
    assert key == SessionPrefix(a) + (s + (":" + rest));
    assert key[|SessionPrefix(a)|..] == s + (":" + rest);
    SessionPrefixColons(key, a);
    ColonCountConcat(s, ":" + rest);
    ColonCountConcat(":", rest);
  }
}
