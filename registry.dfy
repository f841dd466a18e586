/**
 * The agent registry (agents/registry.py): agent classes registered by id,
 * and a cache of agent instances keyed by "<id>_<model>" that is only ever
 * added to.
 */
module Registry {
  import opened Wrappers
  import opened PyStrings

  const InitialDefaultModel := "gpt-4o"

  /**
   * An agent instance. Agent classes live outside this code; an instance is
   * known by the class it was made from and the model it was made for.
   */
  class Agent {
    const agentClass: string
    const model: string

    constructor (agentClass: string, model: string)
      ensures this.agentClass == agentClass && this.model == model
    {
      this.agentClass := agentClass;
      this.model := model;
    }
  }

  datatype RegistryError = NotRegistered(agentId: string)

  /** `model or default_model`: a missing or empty model falls back to the default. */
  function EffectiveModel(model: Option<string>, defaultModel: string): (r: string)
    ensures model.Some? && model.value != [] ==> r == model.value
    ensures model.None? || model.value == [] ==> r == defaultModel
  {
    if model.Some? && model.value != [] then model.value else defaultModel
  }

  /** The cache key of an agent id with a model. */
  function InstanceKey(agentId: string, model: string): string {
    agentId + "_" + model
  }

  /** A key starts with its id and ends with "_" and its model. */
  lemma InstanceKeyParts(agentId: string, model: string)
    ensures var key := InstanceKey(agentId, model);
            StartsWith(key, agentId) && EndsWith(key, "_" + model) && |key| == |agentId| + 1 + |model|
  {
    var key := InstanceKey(agentId, model);
    assert key[..|agentId|] == agentId;
    assert key[|agentId|..] == "_" + model;
  }

  /** The cache keys of the ids for one model. */
  function KeysFor(ids: set<string>, model: string): set<string> {
    set id | id in ids :: InstanceKey(id, model)
  }

  /** An id not among `ids` has a key not among theirs. */
  lemma KeyOfNewId(ids: set<string>, id: string, model: string)
    requires id !in ids
    ensures InstanceKey(id, model) !in KeysFor(ids, model)
  {
    forall other | other in ids ensures InstanceKey(other, model) != InstanceKey(id, model) {
      KeysOfDistinctIds(other, id, model);
    }
  }

  lemma KeysForAdd(ids: set<string>, id: string, model: string)
    ensures KeysFor(ids + {id}, model) == KeysFor(ids, model) + {InstanceKey(id, model)}
  {
  }

  /**
   * What the loop of `GetAllAgents` keeps: every id looked up so far has its
   * cached instance, the entries of `start` stay, and the cache grew by
   * exactly the keys of the ids looked up.
   */
  ghost predicate Gathered(start: map<string, Agent>, cache: map<string, Agent>, result: map<string, Agent>, m: string) {
    (forall id :: id in result ==> InstanceKey(id, m) in cache && result[id] == cache[InstanceKey(id, m)]) &&
    (forall key :: key in start ==> key in cache && cache[key] == start[key]) &&
    cache.Keys == start.Keys + KeysFor(result.Keys, m)
  }

  /** A looked-up id whose instance was already cached. */
  lemma GatherCached(start: map<string, Agent>, cache: map<string, Agent>, result: map<string, Agent>, m: string, id: string)
    requires Gathered(start, cache, result, m) && InstanceKey(id, m) in cache
    ensures Gathered(start, cache, result[id := cache[InstanceKey(id, m)]], m)
  {
    KeysForAdd(result.Keys, id, m);
    assert result[id := cache[InstanceKey(id, m)]].Keys == result.Keys + {id};
  }

  /** A looked-up id whose new instance was added to the cache. */
  lemma GatherAdded(start: map<string, Agent>, cache: map<string, Agent>, result: map<string, Agent>, m: string, id: string, a: Agent)
    requires Gathered(start, cache, result, m) && InstanceKey(id, m) !in cache && id !in result
    ensures Gathered(start, cache[InstanceKey(id, m) := a], result[id := a], m)
  {
    KeysForAdd(result.Keys, id, m);
    assert result[id := a].Keys == result.Keys + {id};
    forall other | other in result ensures InstanceKey(other, m) != InstanceKey(id, m) {
      KeysOfDistinctIds(other, id, m);
    }
  }

  class AgentRegistry {
    var agents: map<string, Agent>
    var agentClasses: map<string, string>
    var defaultModel: string

    /** Every cached instance was made for the model its key ends with. */
    ghost predicate Valid()
      reads this
    {
      forall key :: key in agents ==> EndsWith(key, "_" + agents[key].model)
    }

    constructor ()
      ensures agents == map[] && agentClasses == map[] && defaultModel == InitialDefaultModel
      ensures Valid()
    {
      agents := map[];
      agentClasses := map[];
      defaultModel := InitialDefaultModel;
    }

    /** Registers or replaces the class of an id; cached instances are kept. */
    method Register(agentId: string, agentClass: string) returns (ok: bool)
      requires Valid()
      modifies this
      ensures ok
      ensures agentClasses == old(agentClasses)[agentId := agentClass]
      ensures agents == old(agents) && defaultModel == old(defaultModel)
      ensures Valid()
    {
      agentClasses := agentClasses[agentId := agentClass];
      return true;
    }

    /**
     * The cached instance for the id and the effective model, whatever class
     * or model it was made for; else a new instance of the registered class,
     * cached; else an error and nothing changes.
     */
    method GetAgent(agentId: string, model: Option<string>) returns (r: Result<Agent, RegistryError>)
      requires Valid()
      modifies this
      ensures Valid()
      ensures agentClasses == old(agentClasses) && defaultModel == old(defaultModel)
      ensures var key := InstanceKey(agentId, EffectiveModel(model, old(defaultModel)));
              key in old(agents) ==> r == Success(old(agents)[key]) && agents == old(agents)
      ensures var m := EffectiveModel(model, old(defaultModel));
              var key := InstanceKey(agentId, m);
              key !in old(agents) && agentId in old(agentClasses) ==>
                r.Success? && fresh(r.value) && r.value.model == m &&
                r.value.agentClass == old(agentClasses)[agentId] && agents == old(agents)[key := r.value]
      ensures var key := InstanceKey(agentId, EffectiveModel(model, old(defaultModel)));
              key !in old(agents) && agentId !in old(agentClasses) ==>
                r == Failure(NotRegistered(agentId)) && agents == old(agents)
      ensures r.Success? ==> EndsWith(InstanceKey(agentId, EffectiveModel(model, old(defaultModel))), "_" + r.value.model)
    {
      var agentModel := EffectiveModel(model, defaultModel);
      var instanceKey := InstanceKey(agentId, agentModel);
      if instanceKey in agents {
        return Success(agents[instanceKey]);
      }
      if agentId in agentClasses {
        InstanceKeyParts(agentId, agentModel);
        var agent := new Agent(agentClasses[agentId], agentModel);
        agents := agents[instanceKey := agent];
        return Success(agent);
      } else {
        return Failure(NotRegistered(agentId));
      }
    }

    /**
     * One instance per registered id, all looked up with the same model.
     * Cached entries are never replaced; the cache gains exactly the keys
     * of the ids that were missing.
     */
    method GetAllAgents(model: Option<string>) returns (result: map<string, Agent>)
      requires Valid()
      modifies this
      ensures Valid()
      ensures agentClasses == old(agentClasses) && defaultModel == old(defaultModel)
      ensures result.Keys == agentClasses.Keys
      ensures var m := EffectiveModel(model, defaultModel);
              forall id :: id in result ==> InstanceKey(id, m) in agents && result[id] == agents[InstanceKey(id, m)]
      ensures var m := EffectiveModel(model, defaultModel);
              forall id :: id in result && InstanceKey(id, m) in old(agents) ==> result[id] == old(agents)[InstanceKey(id, m)]
      ensures var m := EffectiveModel(model, defaultModel);
              forall id :: id in result && InstanceKey(id, m) !in old(agents) ==>
                fresh(result[id]) && result[id].model == m && result[id].agentClass == agentClasses[id]
      ensures forall key :: key in old(agents) ==> key in agents && agents[key] == old(agents)[key]
      ensures agents.Keys == old(agents).Keys + KeysFor(result.Keys, EffectiveModel(model, defaultModel))
    {
      var agentModel := EffectiveModel(model, defaultModel);
      ghost var start := agents;
      result := map[];
      var remaining := agentClasses.Keys;
      while remaining != {}
        invariant Valid()
        invariant agentClasses == old(agentClasses) && defaultModel == old(defaultModel)
        invariant remaining <= agentClasses.Keys
        invariant result.Keys == agentClasses.Keys - remaining
        invariant Gathered(start, agents, result, agentModel)
        invariant forall id :: id in result && InstanceKey(id, agentModel) !in start ==>
                    fresh(result[id]) && result[id].model == agentModel && result[id].agentClass == agentClasses[id]
        decreases remaining
      {
        var agentId :| agentId in remaining;
        var agent := GatherOne(agentId, agentModel, result, start);
        result := result[agentId := agent];
        remaining := remaining - {agentId};
      }
    }

    /** One round of the loop of `GetAllAgents`: the instance for one more id. */
    method GatherOne(agentId: string, m: string, result: map<string, Agent>, ghost start: map<string, Agent>)
      returns (agent: Agent)
      requires Valid() && EffectiveModel(Some(m), defaultModel) == m
      requires agentId in agentClasses && agentId !in result
      requires Gathered(start, agents, result, m)
      modifies this
      ensures Valid() && agentClasses == old(agentClasses) && defaultModel == old(defaultModel)
      ensures Gathered(start, agents, result[agentId := agent], m)
      ensures InstanceKey(agentId, m) !in start ==>
                fresh(agent) && agent.model == m && agent.agentClass == agentClasses[agentId]
    {
      var key := InstanceKey(agentId, m);
      KeyOfNewId(result.Keys, agentId, m);
      ghost var before := agents;
      var r := GetAgent(agentId, Some(m));
      agent := r.value;
      if key in before {
        GatherCached(start, before, result, m, agentId);
      } else {
        GatherAdded(start, before, result, m, agentId, agent);
      }
    }

    /** Changes only the default model. */
    method SetDefaultModel(model: string)
      modifies this
      ensures defaultModel == model
      ensures agents == old(agents) && agentClasses == old(agentClasses)
    {
      defaultModel := model;
    }
  }

  /** For one model, different ids never share a key. */
  lemma KeysOfDistinctIds(id1: string, id2: string, model: string)
    requires id1 != id2
    ensures InstanceKey(id1, model) != InstanceKey(id2, model)
  {
    var k1 := InstanceKey(id1, model);
    var k2 := InstanceKey(id2, model);
    InstanceKeyParts(id1, model);
    InstanceKeyParts(id2, model);
    if |id1| == |id2| {
      assert k1[..|id1|] == id1 && k2[..|id2|] == id2;
    } else {
      assert |k1| != |k2|;
    }
  }

  /** Keys are plain concatenations, so different (id, model) pairs can share one. */
  lemma KeysCollide()
    ensures InstanceKey("a_b", "c") == InstanceKey("a", "b_c")
    ensures ("a_b", "c") != ("a", "b_c")
  {
  }

  /** A model without '_' is no longer than any model its key also ends with. */
  lemma ModelSuffix(key: string, m1: string, m2: string)
    requires '_' !in m2
    requires EndsWith(key, "_" + m1) && EndsWith(key, "_" + m2)
    ensures |m1| >= |m2|
  {
    var j := |key| - |m1| - 1;
    assert key[j] == '_';
  }

  /**
   * What a caller of `GetAgent` may rely on: when neither the requested model
   * nor the returned instance's model contains '_', the instance was made for
   * the requested model, even when it came from the cache.
   */
  lemma ReturnedModelIsRequested(agentId: string, m: string, returned: string)
    requires '_' !in m && '_' !in returned
    requires EndsWith(InstanceKey(agentId, m), "_" + returned)
    ensures returned == m
  {
    var key := InstanceKey(agentId, m);
    InstanceKeyParts(agentId, m);
    ModelSuffix(key, m, returned);
    ModelSuffix(key, returned, m);
    assert m == key[|key| - |m|..] == returned;
  }

  /** When no model contains '_', a key determines its id and its model. */
  lemma KeysDistinctWithoutUnderscoreInModel(id1: string, m1: string, id2: string, m2: string)
    requires '_' !in m1 && '_' !in m2
    requires InstanceKey(id1, m1) == InstanceKey(id2, m2)
    ensures id1 == id2 && m1 == m2
  {
    var key := InstanceKey(id1, m1);
    InstanceKeyParts(id1, m1);
    InstanceKeyParts(id2, m2);
    ModelSuffix(key, m1, m2);
    ModelSuffix(key, m2, m1);
    assert m1 == key[|key| - |m1|..] == m2;
    if id1 != id2 {
      KeysOfDistinctIds(id1, id2, m1);
    }
  }
}
