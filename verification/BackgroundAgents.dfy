/**
 The limit on agents that run at the same time, and what admission to the manager means.
 */
module BackgroundAgents {
  import opened Background
  import opened BackgroundStore
  import opened BackgroundCapacity

  /** Agents and teammates that are pending or running. */
  ghost function RunningAgents(m: Manager): set<string> {
    set id | id in m.records && m.records[id].kind != Shell
             && (m.records[id].state == Pending || m.records[id].state == Running)
  }

  /** Tasks of any kind that are pending or running. */
  ghost function RunningTasks(m: Manager): set<string> {
    set id | id in m.records && (m.records[id].state == Pending || m.records[id].state == Running)
  }

  /** Room for one more record and two more notices beside those that running tasks may still give. */
  ghost predicate RoomForOne(m: Manager, config: Config) {
    |m.records| + 1 <= config.maxRecords && |m.events| + 2 * (|RunningTasks(m)| + 1) <= config.maxNotifications
  }

  /** The admission test, said without it. */
  lemma CapacityIff(m: Manager, config: Config, agent: bool)
    ensures HasCapacity(m, config, agent) <==>
            RoomForOne(m, config) && (agent ==> |RunningAgents(m)| + 1 <= config.maxAgents)
  {
    assert ActiveIds(m) == RunningTasks(m);
    assert (set id | id in ActiveIds(m) && m.records[id].kind != Shell) == RunningAgents(m);
  }

  lemma RegisteredAgents(m: Manager, id: string, t: Task, starting: set<string>)
    requires id !in m.records && t.kind != Shell && t.state == Running
    ensures RunningAgents(Register(m, id, t).(starting := starting)) == RunningAgents(m) + {id}
  {
    var m' := Register(m, id, t).(starting := starting);
    forall x ensures x in RunningAgents(m') <==> x in RunningAgents(m) + {id} {}
  }

  /** An agent is registered if and only if, after eviction, there is room for its record and its two notices,
      and fewer agents are running than allowed. */
  lemma AgentStartsIff(m: Manager, id: string, kind: Kind, background: bool, todo: seq<string>, config: Config)
    requires Inv(m) && id !in m.used && kind != Shell
    ensures m.workers <= m.records.Keys
    ensures var m1 := Evict(m, todo, config);
            id in Next(m, StartAgent(id, kind, background, todo), config).records <==>
              RoomForOne(m1, config) && |RunningAgents(m1)| < config.maxAgents
  {
    EvictKeeps(m, todo, config);
    CapacityIff(Evict(m, todo, config), config, true);
  }

  /** A registered agent is running and belongs to the current run; otherwise only the eviction happened. */
  lemma AgentStarted(m: Manager, id: string, kind: Kind, background: bool, todo: seq<string>, config: Config)
    requires Inv(m) && id !in m.used && kind != Shell
    ensures m.workers <= m.records.Keys
    ensures var m1, m' := Evict(m, todo, config), Next(m, StartAgent(id, kind, background, todo), config);
            && (id !in m'.records ==> m' == m1)
            && (id in m'.records ==>
                  && m'.records[id] == Task(kind, m.run, Running, background, true, false, false)
                  && RunningAgents(m') == RunningAgents(m1) + {id})
  {
    EvictKeeps(m, todo, config);
    var m1 := Evict(m, todo, config);
    RegisteredAgents(m1, id, Task(kind, m.run, Running, background, true, false, false), m.starting + {id});
  }

  /** A step that makes an ended agent active again. */
  predicate RevivesAgent(m: Manager, step: Step) {
    && step.ShellFinished? && step.id in m.records && m.records[step.id].kind != Shell
    && !Active(m.records[step.id].state) && Active(step.state)
  }

  lemma {:induction false} EvictAgents(m: Manager, todo: seq<string>, config: Config)
    ensures RunningAgents(Evict(m, todo, config)) <= RunningAgents(m)
    decreases |todo|
  {
    if todo != [] && |m.records| >= config.maxRecords {
      EvictAgents(if Evictable(m, todo[0]) then m.(records := m.records - {todo[0]}) else m, todo[1..], config);
    }
  }

  lemma FlaggedAgent(m: Manager, id: string, stalledTail: bool, x: string)
    requires id in m.records && x in RunningAgents(Flagged(m, id, stalledTail))
    ensures x in RunningAgents(m)
  {
    assert Flagged(m, id, stalledTail).records == m.records[id := m.records[id].(backgrounded := true)];
  }

  lemma ConcludedAgent(m: Manager, id: string, state: TaskState, x: string)
    requires id in m.records && x in RunningAgents(Concluded(m, id, state))
    ensures x in RunningAgents(m)
  {
    var r := Concluded(m, id, state);
    assert x != id ==> r.records[x] == m.records[x];
  }

  /** Moving a task to the background changes no agent's state. */
  lemma MarkedAgent(m: Manager, id: string, stalledTail: bool, state: TaskState, x: string)
    requires id in m.records && x in RunningAgents(Marked(m, id, stalledTail, state))
    ensures x in RunningAgents(m)
  {
    ConcludedAgent(Flagged(m, id, stalledTail), id, state, x);
    FlaggedAgent(m, id, stalledTail, x);
  }

  lemma NoticeAgent(m: Manager, step: Step, config: Config, x: string)
    requires Enabled(m, step) && m.workers <= m.records.Keys && !RevivesAgent(m, step)
    requires step.Stalled? || step.ShellFinished? || step.AgentFinished?
    requires x in RunningAgents(Next(m, step, config))
    ensures x in RunningAgents(m)
  {
    if step.id in m.records && x != step.id { OtherTasksStay(m, step, config, x); }
  }

  lemma QuietStepAgent(m: Manager, step: Step, config: Config, x: string)
    requires Enabled(m, step) && m.workers <= m.records.Keys && !step.StartAgent? && !step.MarkBackground?
    requires !step.Stalled? && !step.ShellFinished? && !step.AgentFinished? && !step.EnsureCapacity?
    requires x in RunningAgents(Next(m, step, config))
    ensures x in RunningAgents(m)
  {}

  /** No other step adds a running agent. */
  lemma OtherStepAgents(m: Manager, step: Step, config: Config)
    requires Enabled(m, step) && m.workers <= m.records.Keys && !step.StartAgent? && !RevivesAgent(m, step)
    ensures RunningAgents(Next(m, step, config)) <= RunningAgents(m)
  {
    if step.EnsureCapacity? {
      EvictAgents(m, step.todo, config);
    } else {
      forall x | x in RunningAgents(Next(m, step, config)) ensures x in RunningAgents(m) {
        if step.MarkBackground? {
          if step.id in m.records { MarkedAgent(m, step.id, step.stalledTail, step.state, x); }
        } else if step.Stalled? || step.ShellFinished? || step.AgentFinished? {
          NoticeAgent(m, step, config, x);
        } else {
          QuietStepAgent(m, step, config, x);
        }
      }
    }
  }

  lemma RevivedAgents(m: Manager, step: Step, config: Config)
    requires Enabled(m, step) && m.workers <= m.records.Keys && RevivesAgent(m, step)
    ensures RunningAgents(Next(m, step, config)) == RunningAgents(m) + {step.id} && step.id !in RunningAgents(m)
  {}

  /** The limit on agents holds after a step if and only if the step does not make an ended agent active again
      while the limit is reached. */
  lemma AgentsWithinIff(m: Manager, step: Step, config: Config)
    requires Inv(m) && Enabled(m, step) && |RunningAgents(m)| <= config.maxAgents
    ensures m.workers <= m.records.Keys
    ensures |RunningAgents(Next(m, step, config))| <= config.maxAgents <==>
            !(RevivesAgent(m, step) && |RunningAgents(m)| == config.maxAgents)
  {
    if RevivesAgent(m, step) {
      RevivedAgents(m, step, config);
    } else if step.StartAgent? {
      AgentStartsIff(m, step.id, step.kind, step.background, step.todo, config);
      AgentStarted(m, step.id, step.kind, step.background, step.todo, config);
      EvictAgents(m, step.todo, config);
      SetCount(RunningAgents(Evict(m, step.todo, config)), RunningAgents(m));
    } else {
      OtherStepAgents(m, step, config);
      SetCount(RunningAgents(Next(m, step, config)), RunningAgents(m));
    }
  }

  ghost predicate NoneRevived(m: Manager, steps: seq<Step>, config: Config)
    requires Run(m, steps, config)
    decreases |steps|
  {
    steps == [] || (!RevivesAgent(m, steps[0]) && NoneRevived(Next(m, steps[0], config), steps[1..], config))
  }

  /** Over every run in which no ended agent is made active again, no more agents run than allowed. */
  lemma {:induction false} AgentsNeverExceed(m: Manager, steps: seq<Step>, config: Config)
    requires Inv(m) && Quiet(m) && Run(m, steps, config) && NoneRevived(m, steps, config)
    requires |RunningAgents(m)| <= config.maxAgents
    ensures |RunningAgents(Final(m, steps, config))| <= config.maxAgents
    decreases |steps|
  {
    if steps != [] {
      AgentsWithinIff(m, steps[0], config);
      StepKeepsInv(m, steps[0], config);
      AgentsNeverExceed(Next(m, steps[0], config), steps[1..], config);
    }
  }
}
