/** The agent registry: four indexes that always agree with a plain scan of the agents. */
module AgentRegistry {
  import opened Options

  datatype AgentStatus = Idle | Active | Busy | Error | Offline

  datatype Agent = Agent(id: string, sections: seq<string>, capabilities: seq<string>, tier: string, status: AgentStatus,
                         escalationTarget: Option<string>)

  type Agents = map<string, Agent>

  type Index = map<string, set<string>>

  datatype Query = Query(section: Option<string>, tier: Option<string>, capability: Option<string>, status: Option<AgentStatus>)

  function Bucket(index: Index, key: string): set<string> {
    if key in index then index[key] else {}
  }

  function Added(index: Index, key: string, id: string): Index {
    index[key := Bucket(index, key) + {id}]
  }

  function Removed(index: Index, key: string, id: string): Index {
    if key in index then index[key := index[key] - {id}] else index
  }

  lemma BucketAdded(index: Index, key: string, id: string)
    ensures forall k, x :: x in Bucket(Added(index, key, id), k) <==> x in Bucket(index, k) || (k == key && x == id)
  {
  }

  lemma BucketRemoved(index: Index, key: string, id: string)
    ensures forall k, x :: x in Bucket(Removed(index, key, id), k) <==> x in Bucket(index, k) && !(k == key && x == id)
    ensures Bucket(Removed(index, key, id), key) == {} ==>
      forall k :: Bucket(Removed(index, key, id) - {key}, k) == Bucket(Removed(index, key, id), k)
  {
  }

  /** An id is taken out of a bucket, and the bucket too if nothing is left. */
  function Unindexed(index: Index, key: string, id: string): Index {
    var rest := Removed(index, key, id);
    if Bucket(rest, key) == {} then rest - {key} else rest
  }

  lemma UnindexedIs(index: Index, key: string, id: string)
    ensures Unindexed(index, key, id) ==
      if Bucket(Removed(index, key, id), key) == {} then Removed(index, key, id) - {key} else Removed(index, key, id)
  {
  }

  lemma {:induction false} BucketUnindexed(index: Index, key: string, id: string)
    ensures forall k, x :: x in Bucket(Unindexed(index, key, id), k) <==> x in Bucket(index, k) && !(k == key && x == id)
  {
    hide Bucket, Removed;
    BucketRemoved(index, key, id);
  }

  /** The needle occurs somewhere in the haystack. */
  predicate Includes(haystack: string, needle: string) {
    exists i :: 0 <= i <= |haystack| && needle <= haystack[i..]
  }

  // ---- The chain of targets ----

  /** The targets from `current` on, up to one that was visited or is not registered. */
  function ChainFrom(agents: Agents, start: string, current: Option<string>, visited: set<string>): (chain: seq<string>)
    decreases |agents.Keys - visited|
  {
    if current.None? || current.value in visited || current.value !in agents then []
    else
      var id := current.value;
      assert agents.Keys - (visited + {id}) < agents.Keys - visited by {
        assert id in agents.Keys - visited;
      }
      SubsetIsSmaller(agents.Keys - (visited + {id}), agents.Keys - visited);
      (if id != start then [id] else []) + ChainFrom(agents, start, agents[id].escalationTarget, visited + {id})
  }

  lemma {:induction false} SubsetIsSmaller<T>(a: set<T>, b: set<T>)
    requires a < b
    ensures |a| < |b|
  {
    var x :| x in b && x !in a;
    assert b == a + (b - a);
    assert |b| == |a| + |b - a|;
  }

  function EscalationChain(agents: Agents, id: string): seq<string> {
    ChainFrom(agents, id, Some(id), {})
  }

  class Registry {
    /** How the code puts a string in lower case. */
    const lower: string -> string
    var agents: Agents
    var sectionIndex: Index
    var capabilityIndex: Index
    var tierIndex: Index

    /** The keys of the first `n` capabilities. */
    function Keys(capabilities: seq<string>, n: nat): (keys: set<string>)
      requires n <= |capabilities|
      ensures forall i :: 0 <= i < n ==> lower(capabilities[i]) in keys
      ensures forall key :: key in keys ==> exists i :: 0 <= i < n && lower(capabilities[i]) == key
    {
      if n == 0 then {} else Keys(capabilities, n - 1) + {lower(capabilities[n - 1])}
    }

    predicate HasCapability(a: Agent, key: string) {
      key in Keys(a.capabilities, |a.capabilities|)
    }

    // Each bucket holds just the ids that a scan of the agents would find.

    ghost predicate SectionsAgree()
      reads this
    {
      forall s, id :: id in Bucket(sectionIndex, s) <==> id in agents && s in agents[id].sections
    }

    ghost predicate CapabilitiesAgree()
      reads this
    {
      forall key, id :: id in Bucket(capabilityIndex, key) <==> id in agents && HasCapability(agents[id], key)
    }

    ghost predicate TiersAgree()
      reads this
    {
      forall t, id :: id in Bucket(tierIndex, t) <==> id in agents && agents[id].tier == t
    }

    ghost predicate Valid()
      reads this
    {
      && (forall id :: id in agents ==> agents[id].id == id)
      && SectionsAgree() && CapabilitiesAgree() && TiersAgree()
    }

    constructor (lower: string -> string)
      ensures Valid() && agents == map[] && this.lower == lower
    {
      this.lower := lower;
      agents, sectionIndex, capabilityIndex, tierIndex := map[], map[], map[], map[];
    }

    /** `ok` is false where the original throws. */
    method Register(agent: Agent) returns (ok: bool)
      requires Valid()
      modifies this
      ensures Valid() && ok == (agent.id !in old(agents))
      ensures agents == if ok then old(agents)[agent.id := agent] else old(agents)
    {
      ok := agent.id !in agents;
      if ok {
        IndexAgent(agent);
      }
    }

    method IndexAgent(agent: Agent)
      requires Valid() && agent.id !in agents
      modifies this
      ensures Valid() && agents == old(agents)[agent.id := agent]
    {
      hide Keys, Bucket, Added, HasCapability;
      ghost var before := agents;
      agents := agents[agent.id := agent];
      IndexSections(agent, before);
      IndexCapabilities(agent, before);
      BucketAdded(tierIndex, agent.tier, agent.id);
      tierIndex := Added(tierIndex, agent.tier, agent.id);
    }

    method IndexSections(agent: Agent, ghost before: Agents)
      requires agent.id !in before && agents == before[agent.id := agent]
      requires forall s, id :: id in Bucket(sectionIndex, s) <==> id in before && s in before[id].sections
      modifies `sectionIndex
      ensures SectionsAgree()
    {
      for i := 0 to |agent.sections|
        invariant forall s, id :: id in Bucket(sectionIndex, s) <==>
          (id in before && s in before[id].sections) || (id == agent.id && s in agent.sections[..i])
      {
        BucketAdded(sectionIndex, agent.sections[i], agent.id);
        sectionIndex := Added(sectionIndex, agent.sections[i], agent.id);
        assert forall s :: s in agent.sections[..i + 1] <==> s in agent.sections[..i] || s == agent.sections[i];
      }
      assert agent.sections[..|agent.sections|] == agent.sections;
    }

    method IndexCapabilities(agent: Agent, ghost before: Agents)
      requires agent.id !in before && agents == before[agent.id := agent]
      requires forall key, id :: id in Bucket(capabilityIndex, key) <==> id in before && HasCapability(before[id], key)
      modifies `capabilityIndex
      ensures CapabilitiesAgree()
    {
      hide Bucket, Added, Removed, Keys, HasCapability;
      NoKeys(agent.capabilities);
      for i := 0 to |agent.capabilities|
        invariant forall key, id :: id in Bucket(capabilityIndex, key) <==>
          (id in before && HasCapability(before[id], key))
          || (id == agent.id && key in Keys(agent.capabilities, i))
      {
        BucketAdded(capabilityIndex, lower(agent.capabilities[i]), agent.id);
        capabilityIndex := Added(capabilityIndex, lower(agent.capabilities[i]), agent.id);
        OneMoreKey(agent.capabilities, i);
      }
      CapabilityKeys(agent);
      assert forall key :: key in Keys(agent.capabilities, |agent.capabilities|) <==> HasCapability(agents[agent.id], key);
    }

    method Unregister(id: string) returns (found: bool)
      requires Valid()
      modifies this
      ensures Valid() && found == (id in old(agents)) && agents == old(agents) - {id}
    {
      hide Keys, Bucket, Removed, HasCapability;
      found := id in agents;
      if !found {
        return;
      }
      var agent := agents[id];
      UnindexSections(agent);
      UnindexCapabilities(agent);
      BucketRemoved(tierIndex, agent.tier, id);
      tierIndex := Removed(tierIndex, agent.tier, id);
      agents := agents - {id};
    }

    method UnindexSections(agent: Agent)
      requires SectionsAgree() && agent.id in agents && agents[agent.id] == agent
      modifies `sectionIndex
      ensures forall s, id :: id in Bucket(sectionIndex, s) <==> id in agents && id != agent.id && s in agents[id].sections
    {
      for i := 0 to |agent.sections|
        invariant forall s, id :: id in Bucket(sectionIndex, s) <==>
          id in agents && s in agents[id].sections && !(id == agent.id && s in agent.sections[..i])
      {
        BucketRemoved(sectionIndex, agent.sections[i], agent.id);
        sectionIndex := Removed(sectionIndex, agent.sections[i], agent.id);
        assert forall x :: x in agent.sections[..i + 1] <==> x in agent.sections[..i] || x == agent.sections[i];
      }
      assert agent.sections[..|agent.sections|] == agent.sections;
    }

    method UnindexCapabilities(agent: Agent)
      requires CapabilitiesAgree() && agent.id in agents && agents[agent.id] == agent
      modifies `capabilityIndex
      ensures forall key, id :: id in Bucket(capabilityIndex, key) <==> id in agents && id != agent.id && HasCapability(agents[id], key)
    {
      hide Bucket, Removed, Unindexed, Keys, HasCapability;
      NoKeys(agent.capabilities);
      CapabilityKeys(agent);
      for i := 0 to |agent.capabilities|
        invariant forall key, id :: id in Bucket(capabilityIndex, key) <==>
          id in agents && HasCapability(agents[id], key)
          && !(id == agent.id && key in Keys(agent.capabilities, i))
      {
        var key := lower(agent.capabilities[i]);
        ghost var before := capabilityIndex;
        capabilityIndex := Removed(capabilityIndex, key, agent.id);
        if Bucket(capabilityIndex, key) == {} {
          capabilityIndex := capabilityIndex - {key};
        }
        UnindexedIs(before, key, agent.id);
        BucketUnindexed(before, key, agent.id);
        OneMoreKey(agent.capabilities, i);
      }
      assert forall key :: key in Keys(agents[agent.id].capabilities, |agent.capabilities|) <==> HasCapability(agents[agent.id], key);
    }

    lemma CapabilityKeys(agent: Agent)
      ensures forall key :: HasCapability(agent, key) <==> key in Keys(agent.capabilities, |agent.capabilities|)
    {
    }

    lemma NoKeys(capabilities: seq<string>)
      ensures Keys(capabilities, 0) == {}
    {
    }

    lemma OneMoreKey(capabilities: seq<string>, i: nat)
      requires i < |capabilities|
      ensures Keys(capabilities, i + 1) == Keys(capabilities, i) + {lower(capabilities[i])}
    {
    }

    method UpdateStatus(id: string, status: AgentStatus) returns (ok: bool)
      requires Valid()
      modifies `agents
      ensures Valid() && ok == (id in old(agents))
      ensures agents == if ok then old(agents)[id := old(agents)[id].(status := status)] else old(agents)
    {
      ok := id in agents;
      if ok {
        agents := agents[id := agents[id].(status := status)];
      }
    }

    /** Forget everything and index the agents of the store, whose ids are distinct. */
    method LoadFromStore(stored: seq<Agent>)
      requires forall i, j :: 0 <= i < j < |stored| ==> stored[i].id != stored[j].id
      modifies this
      ensures Valid() && forall id :: id in agents <==> exists a :: a in stored && a.id == id
      ensures forall a :: a in stored ==> a.id in agents && agents[a.id] == a
    {
      hide Valid;
      ClearAll();
      for i := 0 to |stored|
        invariant Valid()
        invariant forall id :: id in agents <==> exists k :: 0 <= k < i && stored[k].id == id
        invariant forall k :: 0 <= k < i ==> stored[k].id in agents && agents[stored[k].id] == stored[k]
      {
        IndexAgent(stored[i]);
      }
    }

    /** The buckets of sections and tiers stay, empty. */
    method ClearAll()
      modifies this
      ensures Valid() && agents == map[]
    {
      agents, capabilityIndex := map[], map[];
      sectionIndex := map s | s in sectionIndex :: {};
      tierIndex := map t | t in tierIndex :: {};
    }

    method FindBySection(section: string) returns (ids: set<string>)
      requires Valid()
      ensures ids == set id | id in agents && section in agents[id].sections
    {
      ids := Bucket(sectionIndex, section);
    }

    method FindByTier(tier: string) returns (ids: set<string>)
      requires Valid()
      ensures ids == set id | id in agents && agents[id].tier == tier
    {
      ids := Bucket(tierIndex, tier);
    }

    /** A capability of the agent contains the needle. */
    predicate Offers(a: Agent, needle: string) {
      exists i :: 0 <= i < |a.capabilities| && Includes(lower(a.capabilities[i]), needle)
    }

    /** A capability of the agent is contained in the needle. */
    predicate IsPartOf(a: Agent, needle: string) {
      exists i :: 0 <= i < |a.capabilities| && Includes(needle, lower(a.capabilities[i]))
    }

    /** The fuzzy search: either contains the other. */
    method FindByCapability(capability: string) returns (ids: set<string>)
      requires Valid()
      ensures ids == set id | id in agents && (Offers(agents[id], lower(capability)) || IsPartOf(agents[id], lower(capability)))
    {
      hide Includes;
      var needle := lower(capability);
      ids := {};
      var keys := capabilityIndex.Keys;
      while keys != {}
        invariant keys <= capabilityIndex.Keys
        invariant forall id :: id in ids <==> exists key ::
          key in capabilityIndex && key !in keys && id in capabilityIndex[key] && (Includes(key, needle) || Includes(needle, key))
        decreases |keys|
      {
        var key :| key in keys;
        keys := keys - {key};
        if Includes(key, needle) || Includes(needle, key) {
          ids := ids + capabilityIndex[key];
        }
      }
      IndexFindsAll(needle, ids);
      var rest := set id | id in agents && Offers(agents[id], needle);
      ids := ids + rest;
    }

    lemma {:induction false} IndexFindsAll(needle: string, ids: set<string>)
      requires Valid()
      requires forall id :: id in ids <==> exists key ::
        key in capabilityIndex && id in capabilityIndex[key] && (Includes(key, needle) || Includes(needle, key))
      ensures forall id :: id in ids <==> id in agents && (Offers(agents[id], needle) || IsPartOf(agents[id], needle))
    {
      hide Includes;
      forall id | id in ids
        ensures id in agents && (Offers(agents[id], needle) || IsPartOf(agents[id], needle))
      {
        var key :| key in capabilityIndex && id in capabilityIndex[key] && (Includes(key, needle) || Includes(needle, key));
        assert id in Bucket(capabilityIndex, key);
        assert HasCapability(agents[id], key);
      }
      forall id | id in agents && (Offers(agents[id], needle) || IsPartOf(agents[id], needle))
        ensures id in ids
      {
        var i :| 0 <= i < |agents[id].capabilities|
          && (Includes(lower(agents[id].capabilities[i]), needle) || Includes(needle, lower(agents[id].capabilities[i])));
        var key := lower(agents[id].capabilities[i]);
        assert HasCapability(agents[id], key);
        assert id in Bucket(capabilityIndex, key);
      }
    }

    /** What a plain scan checks of an agent. */
    predicate Matches(a: Agent, q: Query) {
      && (q.section.Some? ==> q.section.value in a.sections)
      && (q.tier.Some? ==> a.tier == q.tier.value)
      && (q.capability.Some? ==> Offers(a, lower(q.capability.value)))
      && (q.status.Some? ==> a.status == q.status.value)
    }

    /** Starting from whichever index fits, a query finds what scanning all agents would. */
    method RunQuery(q: Query) returns (ids: set<string>)
      requires Valid()
      ensures ids == set id | id in agents && Matches(agents[id], q)
    {
      hide Offers, IsPartOf, SectionsAgree, CapabilitiesAgree, TiersAgree;
      if q.section.Some? {
        ids := FindBySection(q.section.value);
      } else if q.tier.Some? {
        ids := FindByTier(q.tier.value);
      } else if q.capability.Some? {
        ids := FindByCapability(q.capability.value);
      } else {
        ids := agents.Keys;
      }
      if q.section.Some? {
        ids := set id | id in ids && q.section.value in agents[id].sections;
      }
      if q.tier.Some? {
        ids := set id | id in ids && agents[id].tier == q.tier.value;
      }
      if q.capability.Some? {
        ids := set id | id in ids && Offers(agents[id], lower(q.capability.value));
      }
      if q.status.Some? {
        ids := set id | id in ids && agents[id].status == q.status.value;
      }
    }

    /** The targets above an agent, one after the other. */
    method GetEscalationChain(id: string) returns (chain: seq<string>)
      ensures chain == EscalationChain(agents, id)
    {
      chain := [];
      var visited: set<string> := {};
      var current := Some(id);
      while current.Some?
        invariant chain + ChainFrom(agents, id, current, visited) == EscalationChain(agents, id)
        decreases agents.Keys - visited, current
      {
        if current.value in visited || current.value !in agents {
          break;
        }
        visited := visited + {current.value};
        if current.value != id {
          chain := chain + [current.value];
        }
        current := agents[current.value].escalationTarget;
      }
    }
  }

  // ---- The chain is sound ----

  lemma {:induction false} ChainIsRegistered(agents: Agents, start: string, current: Option<string>, visited: set<string>)
    ensures forall id :: id in ChainFrom(agents, start, current, visited) ==> id in agents && id !in visited && id != start
    decreases |agents.Keys - visited|
  {
    if current.Some? && current.value !in visited && current.value in agents {
      var id := current.value;
      assert id in agents.Keys - visited;
      SubsetIsSmaller(agents.Keys - (visited + {id}), agents.Keys - visited);
      ChainIsRegistered(agents, start, agents[id].escalationTarget, visited + {id});
    }
  }

  predicate NoRepeats(chain: seq<string>) {
    forall i, j :: 0 <= i < j < |chain| ==> chain[i] != chain[j]
  }

  /** Each agent of the chain is the escalation target of the one before it. */
  predicate FollowsTargets(agents: Agents, before: string, chain: seq<string>)
    decreases |chain|
  {
    chain == [] || (before in agents && agents[before].escalationTarget == Some(chain[0]) && FollowsTargets(agents, chain[0], chain[1..]))
  }

  /** The chain ends at an agent without a target, or whose target is unknown or was there before. */
  predicate EndsRightly(agents: Agents, start: string, chain: seq<string>) {
    var last := if chain == [] then start else chain[|chain| - 1];
    last in agents ==>
      var next := agents[last].escalationTarget;
      next.None? || next.value !in agents || next.value == start || next.value in chain
  }

  lemma {:induction false} ChainNoRepeats(agents: Agents, start: string, current: Option<string>, visited: set<string>)
    ensures NoRepeats(ChainFrom(agents, start, current, visited))
    decreases |agents.Keys - visited|
  {
    if current.Some? && current.value !in visited && current.value in agents {
      var id := current.value;
      assert id in agents.Keys - visited;
      SubsetIsSmaller(agents.Keys - (visited + {id}), agents.Keys - visited);
      ChainNoRepeats(agents, start, agents[id].escalationTarget, visited + {id});
      ChainIsRegistered(agents, start, agents[id].escalationTarget, visited + {id});
    }
  }

  /** The start and the chain so far. */
  ghost predicate AreVisited(visited: set<string>, start: string, done: seq<string>) {
    forall x :: x in visited <==> x == start || x in done
  }

  lemma {:induction false} ChainUnfolds(agents: Agents, start: string, id: string, visited: set<string>)
    requires id !in visited && id in agents && id != start
    ensures ChainFrom(agents, start, Some(id), visited) == [id] + ChainFrom(agents, start, agents[id].escalationTarget, visited + {id})
    ensures |agents.Keys - (visited + {id})| < |agents.Keys - visited|
  {
    assert id in agents.Keys - visited;
    SubsetIsSmaller(agents.Keys - (visited + {id}), agents.Keys - visited);
  }

  lemma ChainStops(agents: Agents, start: string, current: Option<string>, visited: set<string>)
    requires current.None? || current.value in visited || current.value !in agents
    ensures ChainFrom(agents, start, current, visited) == []
  {
  }

  /** The rest of a chain after `before`. */
  lemma {:induction false} RestFollows(agents: Agents, start: string, before: string, done: seq<string>, visited: set<string>)
    requires before in agents && before == (if done == [] then start else done[|done| - 1])
    requires AreVisited(visited, start, done)
    ensures var rest := ChainFrom(agents, start, agents[before].escalationTarget, visited);
      FollowsTargets(agents, before, rest) && EndsRightly(agents, start, done + rest)
    decreases |agents.Keys - visited|
  {
    hide ChainFrom;
    var next := agents[before].escalationTarget;
    if next.Some? && next.value !in visited && next.value in agents {
      hide EndsRightly;
      var id := next.value;
      ChainUnfolds(agents, start, id, visited);
      RestFollows(agents, start, id, done + [id], visited + {id});
      var rest := ChainFrom(agents, start, agents[id].escalationTarget, visited + {id});
      assert ([id] + rest)[1..] == rest;
      assert done + ([id] + rest) == done + [id] + rest;
    } else {
      ChainStops(agents, start, next, visited);
      assert done + [] == done;
    }
  }

  /** Whatever the links are, cyclic or broken, the chain is finite, has no repeats, leaves out the
      agent it starts from, follows the targets, and stops only where it must. */
  lemma {:induction false} ChainIsSound(agents: Agents, id: string)
    ensures var chain := EscalationChain(agents, id);
      && NoRepeats(chain) && id !in chain && (forall x :: x in chain ==> x in agents)
      && FollowsTargets(agents, id, chain) && EndsRightly(agents, id, chain)
  {
    ChainNoRepeats(agents, id, Some(id), {});
    ChainIsRegistered(agents, id, Some(id), {});
    if id in agents {
      RestFollows(agents, id, id, [], {} + {id});
      var rest := ChainFrom(agents, id, agents[id].escalationTarget, {} + {id});
      assert [] + rest == rest;
      assert EscalationChain(agents, id) == rest;
    }
  }
}
