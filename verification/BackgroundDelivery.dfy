/**
 That ends are told: a task that ended and was moved to the background, in whichever order, has its
 "finished" notice enqueued, and enqueued once.
 */
module BackgroundDelivery {
  import opened Background

  // ----- A task that ended

  /** The task was evicted or forgotten; or its end was enqueued; or it ended in the foreground. */
  ghost predicate Settled(m: Manager, id: string) {
    && id in m.used
    && (id in m.records ==>
          var t := m.records[id];
          t.notified || (t.done && !t.backgrounded && !Active(t.state)))
  }

  /** The steps with which a task ends: an agent's worker returns, a process is published as finished after it is
      done, or a task that is done is moved to the background. */
  predicate Ends(m: Manager, step: Step, id: string) {
    && id in m.records
    && match step
       case AgentFinished(i, _) => i == id
       case ShellFinished(i, state) => i == id && m.records[id].done && !Active(state)
       case MarkBackground(i, _, _) => i == id && m.records[id].done
       case _ => false
  }

  /** A step that says of the task that it is active. */
  predicate Revives(step: Step, id: string) {
    match step
    case ShellFinished(i, state) => i == id && Active(state)
    case ShellState(i, state) => i == id && Active(state)
    case _ => false
  }

  lemma EnqueueTells(m: Manager, id: string, kind: EventKind)
    requires id in m.records
    ensures var r := Enqueue(m, id, kind);
            && r.used == m.used && r.records.Keys == m.records.Keys
            && (kind == Finished ==> r.records[id] == m.records[id].(notified := true))
            && (forall x :: x in m.records && (x != id || kind != Finished) ==> r.records[x] == m.records[x])
  {}

  lemma FlaggedRecord(m: Manager, id: string, stalledTail: bool)
    requires id in m.records
    ensures var r := Flagged(m, id, stalledTail);
            && r.used == m.used && r.records == m.records[id := m.records[id].(backgrounded := true)]
  {
    EnqueueTells(SetTask(m, id, m.records[id].(backgrounded := true)), id, InteractiveInput);
  }

  lemma ConcludedRecord(m: Manager, id: string, state: TaskState)
    requires id in m.records
    ensures var r := Concluded(m, id, state);
            && r.used == m.used && r.records.Keys == m.records.Keys
            && (if m.records[id].done then r.records[id].notified else r == m)
            && forall x :: x in m.records && x != id ==> r.records[x] == m.records[x]
  {
    var t := m.records[id];
    EnqueueTells(SetTask(m, id, if t.kind == Shell then t.(state := state) else t), id, Finished);
  }

  lemma EndSettles(m: Manager, step: Step, config: Config, id: string)
    requires Inv(m) && Enabled(m, step) && m.workers <= m.records.Keys && Ends(m, step, id)
    ensures Settled(Next(m, step, config), id)
  {
    if step.MarkBackground? {
      FlaggedRecord(m, id, step.stalledTail);
      ConcludedRecord(Flagged(m, id, step.stalledTail), id, step.state);
    }
  }

  lemma {:induction false} EvictSettled(m: Manager, todo: seq<string>, config: Config, id: string)
    requires Settled(m, id)
    ensures Settled(Evict(m, todo, config), id)
    decreases |todo|
  {
    if todo != [] && |m.records| >= config.maxRecords {
      EvictSettled(if Evictable(m, todo[0]) then m.(records := m.records - {todo[0]}) else m, todo[1..], config, id);
    }
  }

  lemma MarkedSettled(m: Manager, id: string, stalledTail: bool, state: TaskState, x: string)
    requires Settled(m, x) && id in m.records
    ensures Settled(Marked(m, id, stalledTail, state), x)
  {
    FlaggedRecord(m, id, stalledTail);
    ConcludedRecord(Flagged(m, id, stalledTail), id, state);
  }

  lemma NoticeSettled(m: Manager, step: Step, config: Config, x: string)
    requires Inv(m) && Enabled(m, step) && m.workers <= m.records.Keys && Settled(m, x) && !Revives(step, x)
    requires step.Stalled? || step.ShellFinished? || step.AgentFinished?
    ensures Settled(Next(m, step, config), x)
  {
    if step.id in m.records {
      EnqueueTells(m, step.id, InteractiveInput);
      if step.ShellFinished? {
        EnqueueTells(SetTask(m, step.id, m.records[step.id].(state := step.state)), step.id, Finished);
      } else if step.AgentFinished? {
        var m1 := SetTask(m, step.id, m.records[step.id].(state := step.state, done := true));
        EnqueueTells(m1.(workers := m.workers - {step.id}), step.id, Finished);
      }
    }
  }

  /** A task that ended stays so, whatever happens, unless it is said to be active again. */
  lemma StaysSettled(m: Manager, step: Step, config: Config, id: string)
    requires Inv(m) && Enabled(m, step) && m.workers <= m.records.Keys && Settled(m, id) && !Revives(step, id)
    ensures Settled(Next(m, step, config), id)
  {
    if step.EnsureCapacity? {
      EvictSettled(m, step.todo, config, id);
    } else if step.StartAgent? {
      EvictSettled(m, step.todo, config, id);
      EvictKeeps(m, step.todo, config);
    } else if step.MarkBackground? {
      if step.id in m.records { MarkedSettled(m, step.id, step.stalledTail, step.state, id); }
    } else if step.Stalled? || step.ShellFinished? || step.AgentFinished? {
      NoticeSettled(m, step, config, id);
    }
  }

  ghost predicate NeverRevived(steps: seq<Step>, id: string) {
    forall i :: 0 <= i < |steps| ==> !Revives(steps[i], id)
  }

  lemma {:induction false} StaysSettledOverRun(m: Manager, steps: seq<Step>, config: Config, id: string)
    requires Inv(m) && Quiet(m) && Run(m, steps, config) && Settled(m, id) && NeverRevived(steps, id)
    ensures Settled(Final(m, steps, config), id)
    decreases |steps|
  {
    if steps != [] {
      StaysSettled(m, steps[0], config, id);
      StepKeepsInv(m, steps[0], config);
      StaysSettledOverRun(Next(m, steps[0], config), steps[1..], config, id);
    }
  }

  // ----- The log of announcements

  /** The pending events, and those of unfinished acknowledgements. */
  ghost predicate Heard(m: Manager, e: Event) { e in m.events || exists taken :: taken in m.inflight && e in taken }

  /** Apart from the tasks in `before`: a "finished" event is about a task that is marked as notified, and a task is
      marked only when such an event was appended. */
  ghost predicate Logged(m: Manager, before: set<string>) {
    && (forall e :: e in m.events ==> e.eventId == EventId(e.taskId, e.kind))
    && (forall e :: Heard(m, e) && e.kind == Finished && e.taskId in m.records && e.taskId !in before ==>
          m.records[e.taskId].notified)
    && (forall id :: id in m.records && id !in before && m.records[id].notified ==> id in m.announced)
  }

  lemma SetTaskLogged(m: Manager, id: string, t: Task, before: set<string>)
    requires Logged(m, before) && id in m.records && t.notified == m.records[id].notified
    ensures Logged(SetTask(m, id, t), before)
  {
    var r := SetTask(m, id, t);
    forall e | Heard(r, e) ensures Heard(m, e) {}
  }

  /** A "finished" event of a task that is not marked is not pending. */
  lemma NotYetSaid(m: Manager, id: string, before: set<string>)
    requires Logged(m, before) && id in m.records && id !in before && HasEvent(m.events, EventId(id, Finished))
    ensures m.records[id].notified
  {
    var i :| 0 <= i < |m.events| && m.events[i].eventId == EventId(id, Finished);
    var e := m.events[i];
    assert e in m.events && Heard(m, e);
    EventIdInjective(e.taskId, e.kind, id, Finished);
  }

  lemma EnqueueLogged(m: Manager, id: string, kind: EventKind, before: set<string>)
    requires Logged(m, before) && id in m.records
    ensures Logged(Enqueue(m, id, kind), before)
  {
    var r := Enqueue(m, id, kind);
    var t, eid := m.records[id], EventId(id, kind);
    forall e | e in r.events ensures e in m.events || e == Event(eid, id, kind, t.owner, t.kind) {}
    forall e | Heard(r, e) ensures Heard(m, e) || e == Event(eid, id, kind, t.owner, t.kind) {}
    if kind == Finished && !t.notified && id !in before && HasEvent(m.events, eid) { NotYetSaid(m, id, before); }
    forall x | x in m.announced ensures x in r.announced {}
    EnqueueTells(m, id, kind);
  }

  lemma {:induction false} EvictLogged(m: Manager, todo: seq<string>, config: Config, before: set<string>)
    requires Logged(m, before)
    ensures Logged(Evict(m, todo, config), before)
    decreases |todo|
  {
    if todo != [] && |m.records| >= config.maxRecords {
      var next := if Evictable(m, todo[0]) then m.(records := m.records - {todo[0]}) else m;
      forall e | Heard(next, e) ensures Heard(m, e) {}
      EvictLogged(next, todo[1..], config, before);
    }
  }

  lemma RegisterLogged(m: Manager, id: string, t: Task, starting: set<string>, before: set<string>)
    requires Inv(m) && Logged(m, before) && id !in m.used && !t.notified
    ensures Logged(Register(m, id, t).(starting := starting), before)
  {
    var r := Register(m, id, t).(starting := starting);
    forall e | Heard(r, e) ensures Heard(m, e) && e.taskId != id {
      if e !in m.events {
        var taken :| taken in m.inflight && e in taken;
        assert TakenOk(m, taken);
      }
    }
  }

  lemma OutboxStepLogged(m: Manager, step: Step, config: Config, before: set<string>)
    requires Inv(m) && Enabled(m, step) && m.workers <= m.records.Keys && Logged(m, before)
    requires step.BeginRun? || step.AckTake? || step.AckDone? || step.AckRestore?
    ensures Logged(Next(m, step, config), before)
  {
    var r := Next(m, step, config);
    if step.BeginRun? { FilterOk(OwnedBy(step.run), m.events); }
    if step.AckTake? {
      FilterOk(IdIn(step.ids), m.events);
      FilterOk(IdNotIn(step.ids), m.events);
    }
    if step.AckRestore? {
      FilterOk(AbsentFrom(m.events), step.taken);
      assert TakenOk(m, step.taken);
    }
    forall e | Heard(r, e) ensures Heard(m, e) {}
  }

  lemma NoticeStepLogged(m: Manager, step: Step, config: Config, before: set<string>)
    requires Enabled(m, step) && m.workers <= m.records.Keys && Logged(m, before)
    requires step.Stalled? || step.ShellFinished? || step.AgentFinished? || step.MarkBackground?
    ensures Logged(Next(m, step, config), before)
  {
    if step.id in m.records {
      var id, t := step.id, m.records[step.id];
      match step
      case Stalled(_) => EnqueueLogged(m, id, InteractiveInput, before);
      case ShellFinished(_, state) =>
        SetTaskLogged(m, id, t.(state := state), before);
        EnqueueLogged(SetTask(m, id, t.(state := state)), id, Finished, before);
      case AgentFinished(_, state) => EndedLogged(m, id, state, before);
      case MarkBackground(_, stalledTail, state) =>
        FlaggedLogged(m, id, stalledTail, before);
        FlaggedRecord(m, id, stalledTail);
        ConcludedLogged(Flagged(m, id, stalledTail), id, state, before);
    }
  }

  lemma EndedLogged(m: Manager, id: string, state: TaskState, before: set<string>)
    requires Logged(m, before) && id in m.records
    ensures Logged(Ended(m, id, state), before)
  {
    var m1 := SetTask(m, id, m.records[id].(state := state, done := true));
    SetTaskLogged(m, id, m.records[id].(state := state, done := true), before);
    var m2 := m1.(workers := m.workers - {id});
    forall e | Heard(m2, e) ensures Heard(m1, e) {}
    EnqueueLogged(m2, id, Finished, before);
  }

  lemma FlaggedLogged(m: Manager, id: string, stalledTail: bool, before: set<string>)
    requires Logged(m, before) && id in m.records
    ensures Logged(Flagged(m, id, stalledTail), before)
  {
    SetTaskLogged(m, id, m.records[id].(backgrounded := true), before);
    EnqueueLogged(SetTask(m, id, m.records[id].(backgrounded := true)), id, InteractiveInput, before);
  }

  lemma ConcludedLogged(m: Manager, id: string, state: TaskState, before: set<string>)
    requires Logged(m, before) && id in m.records
    ensures Logged(Concluded(m, id, state), before)
  {
    var t := m.records[id];
    var next := if t.kind == Shell then t.(state := state) else t;
    SetTaskLogged(m, id, next, before);
    EnqueueLogged(SetTask(m, id, next), id, Finished, before);
  }

  lemma TaskStepLogged(m: Manager, step: Step, config: Config, before: set<string>)
    requires Enabled(m, step) && m.workers <= m.records.Keys && Logged(m, before)
    requires step.SetBackground? || step.EndUnlaunched? || step.Withdraw? || step.ShellState? || step.ProcessDone?
             || step.UnregisterShell? || step.UnregisterAgent? || step.AgentSaved? || step.Launch?
    ensures Logged(Next(m, step, config), before)
  {
    var r := Next(m, step, config);
    forall e | Heard(r, e) ensures Heard(m, e) {}
  }

  lemma StepLogged(m: Manager, step: Step, config: Config, before: set<string>)
    requires Inv(m) && Enabled(m, step) && m.workers <= m.records.Keys && Logged(m, before)
    ensures Logged(Next(m, step, config), before)
  {
    if step.BeginRun? || step.AckTake? || step.AckDone? || step.AckRestore? {
      OutboxStepLogged(m, step, config, before);
    } else if step.Stalled? || step.ShellFinished? || step.AgentFinished? || step.MarkBackground? {
      NoticeStepLogged(m, step, config, before);
    } else if step.EnsureCapacity? {
      EvictLogged(m, step.todo, config, before);
    } else if step.StartAgent? {
      EvictLogged(m, step.todo, config, before);
      EvictKeeps(m, step.todo, config);
      RegisterLogged(Evict(m, step.todo, config), step.id,
        Task(step.kind, m.run, Running, step.background, true, false, false), m.starting + {step.id}, before);
    } else if step.RegisterShell? {
      RegisterLogged(m, step.id, Task(Shell, m.run, step.state, false, true, false, step.done), m.starting, before);
    } else {
      TaskStepLogged(m, step, config, before);
    }
  }

  lemma {:induction false} RunLogged(m: Manager, steps: seq<Step>, config: Config, before: set<string>)
    requires Inv(m) && Quiet(m) && Run(m, steps, config) && Logged(m, before)
    ensures Logged(Final(m, steps, config), before)
    decreases |steps|
  {
    if steps != [] {
      StepLogged(m, steps[0], config, before);
      StepKeepsInv(m, steps[0], config);
      RunLogged(Next(m, steps[0], config), steps[1..], config, before);
    }
  }

  /** A manager starts with nothing about the tasks that are still to come. */
  lemma StartIsLogged(m: Manager)
    requires Inv(m) && m.inflight == multiset{}
    ensures Logged(m, m.records.Keys)
  {}

  // ----- The two together

  /** Over every run: once a task of this run ended, and is not said to be active again, then as long as its record
      is there and it is in the background, its end was enqueued, and enqueued exactly once. */
  lemma EndIsToldOnce(start: Manager, first: seq<Step>, step: Step, later: seq<Step>, config: Config, id: string)
    requires Inv(start) && Quiet(start) && start.inflight == multiset{} && id !in start.records
    requires Run(start, first, config)
    requires var m := Final(start, first, config);
             && Enabled(m, step) && RollbackSafe(m, step) && m.workers <= m.records.Keys && Ends(m, step, id)
             && Run(Next(m, step, config), later, config)
    requires NeverRevived(later, id)
    ensures var r := Final(Next(Final(start, first, config), step, config), later, config);
            id in r.records && r.records[id].backgrounded ==> multiset(r.announced)[id] == 1
  {
    RunKeepsInv(start, first, config);
    StartIsLogged(start);
    RunLogged(start, first, config, start.records.Keys);
    ToldAfterEnd(Final(start, first, config), step, later, config, id, start.records.Keys);
  }

  lemma ToldAfterEnd(m: Manager, step: Step, later: seq<Step>, config: Config, id: string, before: set<string>)
    requires Inv(m) && Quiet(m) && Logged(m, before) && id !in before
    requires Enabled(m, step) && RollbackSafe(m, step) && m.workers <= m.records.Keys && Ends(m, step, id)
    requires Run(Next(m, step, config), later, config) && NeverRevived(later, id)
    ensures var r := Final(Next(m, step, config), later, config);
            id in r.records && r.records[id].backgrounded ==> multiset(r.announced)[id] == 1
  {
    EndSettles(m, step, config, id);
    StepKeepsInv(m, step, config);
    StepLogged(m, step, config, before);
    var m1 := Next(m, step, config);
    StaysSettledOverRun(m1, later, config, id);
    RunLogged(m1, later, config, before);
    RunKeepsInv(m1, later, config);
    SettledIsTold(Final(m1, later, config), id, before);
  }

  lemma SettledIsTold(r: Manager, id: string, before: set<string>)
    requires Inv(r) && Logged(r, before) && Settled(r, id) && id !in before
    ensures id in r.records && r.records[id].backgrounded ==> multiset(r.announced)[id] == 1
  {
    if id in r.records && r.records[id].backgrounded { OnceInLog(r.announced, id); }
  }

  lemma {:induction false} OnceInLog(log: seq<string>, id: string)
    requires id in log && forall i, j :: 0 <= i < j < |log| ==> log[i] != log[j]
    ensures multiset(log)[id] == 1
  {
    var n :| 0 <= n < |log| && log[n] == id;
    assert log == log[..n] + [id] + log[n + 1..];
    assert multiset(log) == multiset(log[..n]) + multiset{id} + multiset(log[n + 1..]);
    assert id !in log[..n] && id !in log[n + 1..];
  }

  /** The end of a background agent that is stopped before its worker was launched is not enqueued. */
  lemma StoppedBeforeLaunch(m: Manager, config: Config, id: string)
    requires m.workers <= m.records.Keys && id in m.records
    requires m.records[id].kind != Shell && !m.records[id].done && m.records[id].backgrounded && !m.records[id].notified
    ensures var r := Next(m, EndUnlaunched(id), config);
            && r.events == m.events && r.announced == m.announced && r.records[id].done && !r.records[id].notified
            && !Settled(r, id)
  {}

  // ----- A life of an agent

  /** Wherever there is capacity an agent can be started, saved, launched and finished, and in the background its end
      is then pending. */
  lemma AgentLife(m: Manager, id: string, kind: Kind, todo: seq<string>, state: TaskState, config: Config)
    requires Inv(m) && Quiet(m) && id !in m.used && kind != Shell && !Active(state)
    requires HasCapacity(Evict(m, todo, config), config, true)
    ensures var steps := [StartAgent(id, kind, true, todo), AgentSaved(id), Launch(id), AgentFinished(id, state)];
            && Run(m, steps, config)
            && var r := Final(m, steps, config);
               && id in r.records && r.records[id] == Task(kind, m.run, state, true, true, true, true)
               && r.events == m.events + [Event(EventId(id, Finished), id, Finished, m.run, kind)]
               && r.workers == m.workers - {id} && r.starting == m.starting - {id}
  {
    var m0 := Evict(m, todo, config);
    EvictKeeps(m, todo, config);
    NoEventOf(m0, id);
    var running := Task(kind, m.run, Running, true, true, false, false);
    var m1 := Register(m0, id, running).(starting := m.starting + {id});
    var m2 := m1.(starting := m.starting + {id} - {id});
    var m3 := m2.(workers := m2.workers + {id});
    LastStretch(m3, id, running, state, config);
    Prepend(m2, Launch(id), [AgentFinished(id, state)], config);
    Prepend(m1, AgentSaved(id), [Launch(id), AgentFinished(id, state)], config);
    Prepend(m, StartAgent(id, kind, true, todo), [AgentSaved(id), Launch(id), AgentFinished(id, state)], config);
    assert m2.starting == m.starting - {id};
  }

  lemma LastStretch(m: Manager, id: string, t: Task, state: TaskState, config: Config)
    requires m.workers <= m.records.Keys && id in m.workers && !Active(state) && m.records[id] == t
    requires t.backgrounded && !t.notified && !HasEvent(m.events, EventId(id, Finished))
    ensures var steps := [AgentFinished(id, state)];
            && Run(m, steps, config)
            && var r := Final(m, steps, config);
               && id in r.records && r.records[id] == t.(state := state, notified := true, done := true)
               && r.events == m.events + [Event(EventId(id, Finished), id, Finished, t.owner, t.kind)]
               && r.workers == m.workers - {id} && r.starting == m.starting
  {
    Prepend(m, AgentFinished(id, state), [], config);
    EnqueueTells(SetTask(m, id, t.(state := state, done := true)).(workers := m.workers - {id}), id, Finished);
  }

  lemma Prepend(m: Manager, step: Step, rest: seq<Step>, config: Config)
    requires Enabled(m, step) && RollbackSafe(m, step) && m.workers <= m.records.Keys
    requires Run(Next(m, step, config), rest, config)
    ensures Run(m, [step] + rest, config)
    ensures Final(m, [step] + rest, config) == Final(Next(m, step, config), rest, config)
  {
    assert ([step] + rest)[1..] == rest;
  }

  lemma NoEventOf(m: Manager, id: string)
    requires Inv(m) && id !in m.records
    ensures !HasEvent(m.events, EventId(id, Finished))
  {
    if i :| 0 <= i < |m.events| && m.events[i].eventId == EventId(id, Finished) {
      assert m.events[i] in m.events;
      EventIdInjective(m.events[i].taskId, m.events[i].kind, id, Finished);
    }
  }
}
