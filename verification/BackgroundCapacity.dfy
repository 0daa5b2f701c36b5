/**
 The notification reservation: every active task holds room for its two possible notices, so
 the outbox never grows past its limit as long as there is room for what comes beyond it.
 */
module BackgroundCapacity {
  import opened Background
  import opened BackgroundStore

  /** Pending events of tasks outside `active`, plus two reserved places for each task in it. */
  ghost function Load(active: set<string>, events: seq<Event>): int {
    |events| - CountIn(active, events) + 2 * |active|
  }

  ghost function Reserved(m: Manager): int { Load(ActiveIds(m), m.events) }

  // ----- How the load changes

  lemma {:induction false} CountInSnoc(ids: set<string>, events: seq<Event>, e: Event)
    ensures CountIn(ids, events + [e]) == CountIn(ids, events) + if e.taskId in ids then 1 else 0
  {
    if events == [] {
      assert events + [e] == [e];
    } else {
      assert (events + [e])[1..] == events[1..] + [e];
      CountInSnoc(ids, events[1..], e);
    }
  }

  lemma {:induction false} CountInSplit(ids: set<string>, id: string, events: seq<Event>)
    requires id in ids
    ensures CountIn(ids, events) == CountIn(ids - {id}, events) + CountIn({id}, events)
  {
    if events != [] { CountInSplit(ids, id, events[1..]); }
  }

  /** A task that ends gives up its reservation, which covers the events it leaves behind. */
  lemma Deactivate(active: set<string>, id: string, events: seq<Event>)
    requires id in active && DistinctIds(events) && Named(events)
    ensures Load(active - {id}, events) <= Load(active, events)
  {
    CountInSplit(active, id, events);
    CountInBound({id}, events);
  }

  lemma {:induction false} DropEvents(active: set<string>, keep: Event -> bool, events: seq<Event>)
    ensures Load(active, Filter(keep, events)) <= Load(active, events)
  {
    if events != [] { DropEvents(active, keep, events[1..]); }
  }

  lemma {:induction false} CountInNone(ids: set<string>, id: string, events: seq<Event>)
    requires forall i :: 0 <= i < |events| ==> events[i].taskId != id
    ensures CountIn(ids - {id}, events) == CountIn(ids, events)
  {
    if events != [] { CountInNone(ids, id, events[1..]); }
  }

  lemma {:induction false} LoadCoversOutbox(m: Manager)
    requires Inv(m)
    ensures |m.events| <= Reserved(m)
  {
    InvNamed(m);
    CountInBound(ActiveIds(m), m.events);
  }

  lemma ActiveAfterSet(m: Manager, id: string, t: Task)
    ensures ActiveIds(SetTask(m, id, t)) == if Active(t.state) then ActiveIds(m) + {id} else ActiveIds(m) - {id}
  {
  }

  lemma EnqueueActive(m: Manager, id: string, kind: EventKind)
    requires id in m.records
    ensures ActiveIds(Enqueue(m, id, kind)) == ActiveIds(m)
    ensures Enqueue(m, id, kind).records[id].state == m.records[id].state
  {
  }

  /** A notice from an active task takes a place that was reserved for it. */
  lemma EnqueueReserved(m: Manager, id: string, kind: EventKind, active: set<string>)
    requires id in m.records && id in active
    ensures Load(active, Enqueue(m, id, kind).events) == Load(active, m.events)
  {
    var t, eid := m.records[id], EventId(id, kind);
    CountInSnoc(active, m.events, Event(eid, id, kind, t.owner, t.kind));
  }

  // ----- What steps take beyond the reservation

  lemma {:induction false} CountInConcat(ids: set<string>, a: seq<Event>, b: seq<Event>)
    ensures CountIn(ids, a + b) == CountIn(ids, a) + CountIn(ids, b)
  {
    if a == [] {
      assert a + b == b;
    } else {
      assert (a + b)[1..] == a[1..] + b;
      CountInConcat(ids, a[1..], b);
    }
  }

  /** Events that a rolled-back acknowledgement puts back for tasks that are not active any more. */
  ghost function Returning(m: Manager, taken: seq<Event>): int {
    var back := Filter(AbsentFrom(m.events), taken);
    |back| - CountIn(ActiveIds(m), back)
  }

  /** After a rolled-back acknowledgement the limit holds if and only if it has room for the events of
      inactive tasks that come back. */
  lemma RestoreWithinIff(m: Manager, taken: seq<Event>, config: Config)
    requires taken in m.inflight && m.workers <= m.records.Keys
    ensures Reserved(Next(m, AckRestore(taken), config)) == Reserved(m) + Returning(m, taken)
    ensures Reserved(Next(m, AckRestore(taken), config)) <= config.maxNotifications <==>
            Reserved(m) + Returning(m, taken) <= config.maxNotifications
  {
    CountInConcat(ActiveIds(m), Filter(AbsentFrom(m.events), taken), m.events);
    assert ActiveIds(Next(m, AckRestore(taken), config)) == ActiveIds(m);
  }

  lemma {:induction false} CountInOther(ids: set<string>, id: string, events: seq<Event>)
    requires forall i :: 0 <= i < |events| ==> events[i].taskId != id
    ensures CountIn(ids + {id}, events) == CountIn(ids, events)
  {
    if events != [] { CountInOther(ids, id, events[1..]); }
  }

  /** A registered task takes two places if it is active and none otherwise; so the limit holds
      afterwards if and only if there was room for them. */
  lemma RegisterWithinIff(m: Manager, id: string, t: Task, limit: int)
    requires Inv(m) && id !in m.used
    ensures Reserved(Register(m, id, t)) == Reserved(m) + if Active(t.state) then 2 else 0
    ensures Reserved(Register(m, id, t)) <= limit <==> Reserved(m) + (if Active(t.state) then 2 else 0) <= limit
  {
    var m' := Register(m, id, t);
    forall i | 0 <= i < |m.events| ensures m.events[i].taskId != id { assert m.events[i] in m.events; }
    CountInOther(ActiveIds(m), id, m.events);
    assert ActiveIds(m') == if Active(t.state) then ActiveIds(m) + {id} else ActiveIds(m);
  }

  /** The admission test leaves room for one more task. */
  lemma CapacityAdmits(m: Manager, config: Config, agent: bool)
    requires HasCapacity(m, config, agent)
    ensures Reserved(m) + 2 <= config.maxNotifications
  {
  }

  // ----- Notices about tasks that ended already

  /** Events that enqueuing a notice appends. */
  function Fresh(m: Manager, id: string, kind: EventKind): nat
    requires id in m.records
  {
    if HasEvent(m.events, EventId(id, kind)) || (kind == Finished && m.records[id].notified) then 0 else 1
  }

  /** Events that a step about one task appends. */
  function Notices(m: Manager, step: Step): nat {
    match step
    case Stalled(id) =>
      if id in m.records && m.records[id].backgrounded then Fresh(m, id, InteractiveInput) else 0
    case ShellFinished(id, _) =>
      if id in m.records && m.records[id].backgrounded then Fresh(m, id, Finished) else 0
    case MarkBackground(id, stalledTail, _) =>
      if id !in m.records then 0
      else
        (if stalledTail then Fresh(m, id, InteractiveInput) else 0)
        + (if m.records[id].done then Fresh(m, id, Finished) else 0)
    case AgentFinished(id, _) =>
      if id in m.records && m.records[id].backgrounded then Fresh(m, id, Finished) else 0
    case _ => 0
  }

  predicate AboutTask(step: Step) {
    || step.Stalled? || step.ShellFinished? || step.MarkBackground? || step.AgentFinished? || step.ShellState?
  }

  /** Does the step make an ended task active again? */
  predicate Revives(m: Manager, step: Step) {
    match step
    case ShellFinished(id, state) => id in m.records && Active(state)
    case MarkBackground(id, _, state) => id in m.records && m.records[id].done && m.records[id].kind == Shell &&
        Active(state)
    case ShellState(id, state) => id in m.records && m.records[id].kind == Shell && Active(state)
    case _ => false
  }

  /** Places a step takes beyond what is reserved: two for a new active shell; the returning events of a
      rolled-back acknowledgement; the notices about a task that ended already, and, if it becomes active
      again, the places that its pending events do not fill. */
  ghost function Room(m: Manager, step: Step): int {
    match step
    case RegisterShell(_, state, _) => if Active(state) then 2 else 0
    case AckRestore(taken) => Returning(m, taken)
    case _ =>
      if AboutTask(step) && step.id in m.records && !Active(m.records[step.id].state) then
        if Revives(m, step) then 2 - CountIn({step.id}, m.events) else Notices(m, step)
      else 0
  }

  lemma EnqueueOutside(m: Manager, id: string, kind: EventKind, active: set<string>)
    requires id in m.records && id !in active
    ensures var r := Enqueue(m, id, kind);
            && |r.events| == |m.events| + Fresh(m, id, kind)
            && CountIn(active, r.events) == CountIn(active, m.events)
            && CountIn({id}, r.events) == CountIn({id}, m.events) + Fresh(m, id, kind)
  {
    var t, eid := m.records[id], EventId(id, kind);
    CountInSnoc(active, m.events, Event(eid, id, kind, t.owner, t.kind));
    CountInSnoc({id}, m.events, Event(eid, id, kind, t.owner, t.kind));
  }

  /** The two notices of one task do not stand for each other. */
  lemma StallNotFinish(m: Manager, id: string)
    requires id in m.records
    ensures var r := Enqueue(m, id, InteractiveInput);
            r.records == m.records && Fresh(r, id, Finished) == Fresh(m, id, Finished)
  {
    var r := Enqueue(m, id, InteractiveInput);
    EventIdInjective(id, InteractiveInput, id, Finished);
    assert forall i :: 0 <= i < |m.events| ==> r.events[i] == m.events[i];
    if HasEvent(m.events, EventId(id, Finished)) {
      var i :| 0 <= i < |m.events| && m.events[i].eventId == EventId(id, Finished);
      assert r.events[i].eventId == EventId(id, Finished);
    }
  }

  /** m' is m with `n` more events, all about `id`. */
  ghost predicate Gained(m: Manager, m': Manager, id: string, n: int, active: set<string>) {
    && |m'.events| == |m.events| + n
    && CountIn(active, m'.events) == CountIn(active, m.events)
    && CountIn({id}, m'.events) == CountIn({id}, m.events) + n
  }

  lemma FlaggedGains(m: Manager, id: string, stalledTail: bool, active: set<string>)
    requires id in m.records && id !in active
    ensures var m2 := Flagged(m, id, stalledTail);
            && Gained(m, m2, id, if stalledTail then Fresh(m, id, InteractiveInput) else 0, active)
            && id in m2.records && Fresh(m2, id, Finished) == Fresh(m, id, Finished)
            && m2.records == m.records[id := m.records[id].(backgrounded := true)]
  {
    var m1 := SetTask(m, id, m.records[id].(backgrounded := true));
    EnqueueOutside(m1, id, InteractiveInput, active);
    StallNotFinish(m1, id);
  }

  lemma ConcludedGains(m: Manager, id: string, state: TaskState, active: set<string>)
    requires id in m.records && id !in active
    ensures Gained(m, Concluded(m, id, state), id, if m.records[id].done then Fresh(m, id, Finished) else 0, active)
    ensures var t := m.records[id];
            id in Concluded(m, id, state).records
            && Concluded(m, id, state).records[id].state == if t.done && t.kind == Shell then state else t.state
  {
    var t := m.records[id];
    if t.done {
      var m1 := SetTask(m, id, if t.kind == Shell then t.(state := state) else t);
      EnqueueOutside(m1, id, Finished, active);
    }
  }

  lemma OtherTasksStay(m: Manager, step: Step, config: Config, id: string)
    requires Enabled(m, step) && m.workers <= m.records.Keys && AboutTask(step) && step.id in m.records
    ensures id != step.id ==> (id in Next(m, step, config).records <==> id in m.records)
    ensures id != step.id && id in m.records ==> Next(m, step, config).records[id] == m.records[id]
  {}

  lemma StepGains(m: Manager, step: Step, config: Config, active: set<string>)
    requires Enabled(m, step) && m.workers <= m.records.Keys && AboutTask(step) && step.id in m.records
    requires step.id !in active && !Active(m.records[step.id].state)
    ensures var m' := Next(m, step, config);
            && Gained(m, m', step.id, Notices(m, step), active)
            && step.id in m'.records && (Active(m'.records[step.id].state) <==> Revives(m, step))
  {
    var id := step.id;
    var t := m.records[id];
    if step.MarkBackground? {
      FlaggedGains(m, id, step.stalledTail, active);
      ConcludedGains(Flagged(m, id, step.stalledTail), id, step.state, active);
    } else if step.Stalled? {
      EnqueueOutside(m, id, InteractiveInput, active);
    } else if step.ShellFinished? {
      EnqueueOutside(SetTask(m, id, t.(state := step.state)), id, Finished, active);
    } else if step.AgentFinished? {
      var m1 := SetTask(m, id, t.(state := step.state, done := true)).(workers := m.workers - {id});
      EnqueueOutside(m1, id, Finished, active);
    }
  }

  lemma {:induction false} CountInJoin(ids: set<string>, id: string, events: seq<Event>)
    requires id !in ids
    ensures CountIn(ids + {id}, events) == CountIn(ids, events) + CountIn({id}, events)
  {
    if events != [] { CountInJoin(ids, id, events[1..]); }
  }

  /** The load after a gain about an ended task. */
  lemma GainedReserved(m: Manager, m': Manager, id: string, n: int)
    requires id !in ActiveIds(m) && Gained(m, m', id, n, ActiveIds(m))
    requires ActiveIds(m') == ActiveIds(m) || ActiveIds(m') == ActiveIds(m) + {id}
    ensures Reserved(m') == Reserved(m) + if id in ActiveIds(m') then 2 - CountIn({id}, m.events) else n
  {
    if id in ActiveIds(m') { CountInJoin(ActiveIds(m), id, m'.events); }
  }

  /** A step about a task that ended already changes the load by exactly its room; so the limit holds
      afterwards if and only if there was room for the notices. */
  lemma EndedStepWithinIff(m: Manager, step: Step, config: Config)
    requires Enabled(m, step) && m.workers <= m.records.Keys && AboutTask(step)
    requires step.id in m.records && !Active(m.records[step.id].state)
    ensures Reserved(Next(m, step, config)) == Reserved(m) + Room(m, step)
    ensures Reserved(Next(m, step, config)) <= config.maxNotifications <==>
            Reserved(m) + Room(m, step) <= config.maxNotifications
    ensures !Revives(m, step) ==> Room(m, step) == |Next(m, step, config).events| - |m.events|
  {
    var m', id := Next(m, step, config), step.id;
    StepGains(m, step, config, ActiveIds(m));
    forall x ensures x != id ==> (x in ActiveIds(m') <==> x in ActiveIds(m)) { OtherTasksStay(m, step, config, x); }
    assert ActiveIds(m') == if Revives(m, step) then ActiveIds(m) + {id} else ActiveIds(m);
    GainedReserved(m, m', id, Notices(m, step));
  }

  // ----- Disciplined steps

  /** The one condition of the reservation: there is room for what the step takes beyond it. */
  ghost predicate Disciplined(m: Manager, step: Step, config: Config) {
    Enabled(m, step) && RollbackSafe(m, step) && Reserved(m) + Room(m, step) <= config.maxNotifications
  }

  lemma RemoveReserved(m: Manager, id: string)
    requires Inv(m) && !HasPending(m.events, id)
    ensures Reserved(m.(records := m.records - {id})) <= Reserved(m)
  {
    var m' := m.(records := m.records - {id});
    assert ActiveIds(m') == ActiveIds(m) - {id};
    CountInNone(ActiveIds(m), id, m.events);
  }

  lemma {:induction false} EvictReserved(m: Manager, todo: seq<string>, config: Config)
    requires Inv(m)
    ensures Reserved(Evict(m, todo, config)) <= Reserved(m)
    decreases |todo|
  {
    if todo != [] && |m.records| >= config.maxRecords {
      if Evictable(m, todo[0]) {
        RemoveReserved(m, todo[0]);
        RemoveKeeps(m, todo[0]);
        EvictReserved(m.(records := m.records - {todo[0]}), todo[1..], config);
      } else {
        EvictReserved(m, todo[1..], config);
      }
    }
  }

  /** An active task ends or stays, after enqueuing notices: the load does not grow. */
  lemma NoticeReserved(m: Manager, m': Manager, id: string)
    requires Inv(m') && id in ActiveIds(m)
    requires Load(ActiveIds(m), m'.events) == Load(ActiveIds(m), m.events)
    requires ActiveIds(m') == ActiveIds(m) || ActiveIds(m') == ActiveIds(m) - {id}
    ensures Reserved(m') <= Reserved(m)
  {
    InvNamed(m');
    Deactivate(ActiveIds(m), id, m'.events);
  }

  lemma FlaggedLoad(m: Manager, id: string, stalledTail: bool)
    requires id in ActiveIds(m)
    ensures var m2 := Flagged(m, id, stalledTail);
            ActiveIds(m2) == ActiveIds(m) && Load(ActiveIds(m), m2.events) == Load(ActiveIds(m), m.events)
  {
    var t := m.records[id].(backgrounded := true);
    ActiveAfterSet(m, id, t);
    assert ActiveIds(SetTask(m, id, t)) == ActiveIds(m);
    EnqueueActive(SetTask(m, id, t), id, InteractiveInput);
    EnqueueReserved(SetTask(m, id, t), id, InteractiveInput, ActiveIds(m));
  }

  lemma ConcludedLoad(m: Manager, id: string, state: TaskState)
    requires id in ActiveIds(m)
    ensures var m2 := Concluded(m, id, state);
            && (ActiveIds(m2) == ActiveIds(m) || ActiveIds(m2) == ActiveIds(m) - {id})
            && Load(ActiveIds(m), m2.events) == Load(ActiveIds(m), m.events)
  {
    var t := m.records[id];
    if t.done {
      var t' := if t.kind == Shell then t.(state := state) else t;
      ActiveAfterSet(m, id, t');
      assert ActiveIds(m) + {id} == ActiveIds(m);
      EnqueueActive(SetTask(m, id, t'), id, Finished);
      EnqueueReserved(SetTask(m, id, t'), id, Finished, ActiveIds(m));
    }
  }

  lemma MarkedReserved(m: Manager, id: string, stalledTail: bool, state: TaskState)
    requires Inv(m) && id in m.records && Active(m.records[id].state)
    ensures Reserved(Marked(m, id, stalledTail, state)) <= Reserved(m)
  {
    FlaggedLoad(m, id, stalledTail);
    ConcludedLoad(Flagged(m, id, stalledTail), id, state);
    MarkedKeeps(m, id, stalledTail, state);
    NoticeReserved(m, Marked(m, id, stalledTail, state), id);
  }

  lemma NoticeStepReserved(m: Manager, step: Step, config: Config)
    requires Inv(m) && Enabled(m, step) && m.workers <= m.records.Keys
    requires step.Stalled? || step.ShellFinished? || step.MarkBackground? || step.AgentFinished?
    requires step.id in m.records ==> Active(m.records[step.id].state)
    ensures Reserved(Next(m, step, config)) <= Reserved(m)
  {
    var id := step.id;
    if id in m.records {
      if step.MarkBackground? {
        MarkedReserved(m, id, step.stalledTail, step.state);
      } else {
        var a, t, m' := ActiveIds(m), m.records[id], Next(m, step, config);
        NoticeStepKeeps(m, step, config);
        if step.Stalled? {
          EnqueueActive(m, id, InteractiveInput);
          EnqueueReserved(m, id, InteractiveInput, a);
        } else {
          var t' := if step.ShellFinished? then t.(state := step.state) else t.(state := step.state, done := true);
          var m1 := if step.ShellFinished? then SetTask(m, id, t')
                    else SetTask(m, id, t').(workers := m.workers - {id});
          ActiveAfterSet(m, id, t');
          assert ActiveIds(m1) == ActiveIds(SetTask(m, id, t'));
          EnqueueActive(m1, id, Finished);
          EnqueueReserved(m1, id, Finished, a);
        }
        NoticeReserved(m, m', id);
      }
    }
  }

  lemma TaskStepReserved(m: Manager, step: Step, config: Config)
    requires Inv(m) && Enabled(m, step) && m.workers <= m.records.Keys
    requires step.SetBackground? || step.Withdraw? || step.ShellState? || step.ProcessDone? || step.Launch? ||
        step.EndUnlaunched?
    requires step.ShellState? && step.id in m.records ==> Active(m.records[step.id].state)
    ensures Reserved(Next(m, step, config)) <= Reserved(m)
  {
    var m', id := Next(m, step, config), step.id;
    TaskStepKeeps(m, step, config);
    assert m'.events == m.events;
    if ActiveIds(m') != ActiveIds(m) {
      assert id in m.records && (step.ShellState? || step.EndUnlaunched?);
      assert ActiveIds(m') == ActiveIds(m) - {id};
      NoticeReserved(m, m', id);
    }
  }

  lemma StartReserved(m: Manager, step: Step, config: Config)
    requires Inv(m) && Enabled(m, step) && step.StartAgent? && Reserved(m) <= config.maxNotifications
    ensures m.workers <= m.records.Keys && Reserved(Next(m, step, config)) <= config.maxNotifications
  {
    EvictReserved(m, step.todo, config);
    EvictKeeps(m, step.todo, config);
    var m1 := Evict(m, step.todo, config);
    if HasCapacity(m1, config, true) {
      var t := Task(step.kind, m.run, Running, step.background, true, false, false);
      CapacityAdmits(m1, config, true);
      RegisterWithinIff(m1, step.id, t, config.maxNotifications);
      assert ActiveIds(Next(m, step, config)) == ActiveIds(Register(m1, step.id, t));
    }
  }

  lemma RecordStepReserved(m: Manager, step: Step, config: Config)
    requires Inv(m) && Quiet(m) && Enabled(m, step) && RollbackSafe(m, step)
    requires step.UnregisterShell? || step.UnregisterAgent? || step.AgentSaved?
    ensures m.workers <= m.records.Keys && Reserved(Next(m, step, config)) <= Reserved(m)
  {
    var m' := Next(m, step, config);
    if step.AgentSaved? {
      assert ActiveIds(m') == ActiveIds(m);
    } else {
      RemoveReserved(m, step.id);
      assert ActiveIds(m') == ActiveIds(m.(records := m.records - {step.id}));
    }
  }

  /** Steps that need no room never take any. */
  lemma RoomlessStepReserved(m: Manager, step: Step, config: Config)
    requires Inv(m) && Quiet(m) && Enabled(m, step) && RollbackSafe(m, step) && Reserved(m) <= config.maxNotifications
    requires !step.RegisterShell? && !step.AckRestore?
    requires AboutTask(step) && step.id in m.records ==> Active(m.records[step.id].state)
    ensures m.workers <= m.records.Keys && Reserved(Next(m, step, config)) <= config.maxNotifications
  {
    var m' := Next(m, step, config);
    if step.BeginRun? {
      DropEvents(ActiveIds(m), OwnedBy(step.run), m.events);
      assert ActiveIds(m') == ActiveIds(m);
    } else if step.AckTake? {
      DropEvents(ActiveIds(m), IdNotIn(step.ids), m.events);
      assert ActiveIds(m') == ActiveIds(m);
    } else if step.AckDone? {
      assert ActiveIds(m') == ActiveIds(m);
    } else if step.EnsureCapacity? {
      EvictReserved(m, step.todo, config);
    } else if step.StartAgent? {
      StartReserved(m, step, config);
    } else if step.UnregisterShell? || step.UnregisterAgent? || step.AgentSaved? {
      RecordStepReserved(m, step, config);
    } else if step.Stalled? || step.ShellFinished? || step.MarkBackground? || step.AgentFinished? {
      NoticeStepReserved(m, step, config);
    } else {
      TaskStepReserved(m, step, config);
    }
  }

  /** Whatever the step, the limit holds after it if and only if there was room for what it takes. */
  lemma StepWithinIff(m: Manager, step: Step, config: Config)
    requires Inv(m) && Quiet(m) && Enabled(m, step) && RollbackSafe(m, step) && Reserved(m) <= config.maxNotifications
    ensures m.workers <= m.records.Keys
    ensures Reserved(Next(m, step, config)) <= config.maxNotifications <==>
            Reserved(m) + Room(m, step) <= config.maxNotifications
  {
    if step.RegisterShell? {
      RegisterWithinIff(m, step.id, Task(Shell, m.run, step.state, false, true, false, step.done),
          config.maxNotifications);
    } else if step.AckRestore? {
      RestoreWithinIff(m, step.taken, config);
    } else if AboutTask(step) && step.id in m.records && !Active(m.records[step.id].state) {
      EndedStepWithinIff(m, step, config);
    } else {
      RoomlessStepReserved(m, step, config);
    }
  }

  ghost predicate DisciplinedRun(m: Manager, steps: seq<Step>, config: Config)
    requires Run(m, steps, config)
    decreases |steps|
  {
    steps == [] || (
      && Disciplined(m, steps[0], config)
      && DisciplinedRun(Next(m, steps[0], config), steps[1..], config))
  }

  /** The reserved places stay within the limit at every state of the run. */
  ghost predicate WithinThroughout(m: Manager, steps: seq<Step>, config: Config)
    requires Run(m, steps, config)
    decreases |steps|
  {
    && Reserved(m) <= config.maxNotifications
    && (steps == [] || WithinThroughout(Next(m, steps[0], config), steps[1..], config))
  }

  /** Over every run from within the limit: the limit holds throughout if and only if every step finds
      room for what it takes. */
  lemma {:induction false} RunWithinIff(m: Manager, steps: seq<Step>, config: Config)
    requires Inv(m) && Quiet(m) && Run(m, steps, config) && Reserved(m) <= config.maxNotifications
    ensures DisciplinedRun(m, steps, config) <==> WithinThroughout(m, steps, config)
    decreases |steps|
  {
    if steps != [] {
      var next := Next(m, steps[0], config);
      StepWithinIff(m, steps[0], config);
      StepKeepsInv(m, steps[0], config);
      if Reserved(next) <= config.maxNotifications { RunWithinIff(next, steps[1..], config); }
    }
  }

  /** Over any such run, reserved places and outbox stay within the configured limit. */
  lemma {:induction false} OutboxNeverOverflows(m: Manager, steps: seq<Step>, config: Config)
    requires Inv(m) && Quiet(m) && Run(m, steps, config) && DisciplinedRun(m, steps, config)
    requires Reserved(m) <= config.maxNotifications
    ensures |Final(m, steps, config).events| <= Reserved(Final(m, steps, config)) <= config.maxNotifications
    decreases |steps|
  {
    if steps == [] {
      LoadCoversOutbox(m);
    } else {
      StepWithinIff(m, steps[0], config);
      StepKeepsInv(m, steps[0], config);
      OutboxNeverOverflows(Next(m, steps[0], config), steps[1..], config);
    }
  }

  // ----- The number of records

  lemma {:induction false} EvictRecords(m: Manager, todo: seq<string>, config: Config)
    ensures Evict(m, todo, config).records.Keys <= m.records.Keys
    decreases |todo|
  {
    if todo != [] && |m.records| >= config.maxRecords {
      EvictRecords(if Evictable(m, todo[0]) then m.(records := m.records - {todo[0]}) else m, todo[1..], config);
    }
  }

  lemma KeysCount(a: map<string, Task>, b: map<string, Task>)
    requires a.Keys <= b.Keys
    ensures |a| <= |b|
  {
    SetCount(a.Keys, b.Keys);
    assert |a| == |a.Keys| && |b| == |b.Keys|;
  }

  lemma {:induction false} SetCount(a: set<string>, b: set<string>)
    requires a <= b
    ensures |a| <= |b|
    decreases |a|
  {
    if x :| x in a { SetCount(a - {x}, b - {x}); }
  }

  lemma OtherStepRecords(m: Manager, step: Step, config: Config)
    requires Enabled(m, step) && m.workers <= m.records.Keys && !step.RegisterShell? && !step.StartAgent?
    ensures Next(m, step, config).records.Keys <= m.records.Keys
  {
    if step.EnsureCapacity? { EvictRecords(m, step.todo, config); }
  }

  lemma AddedCount(records: map<string, Task>, id: string, t: Task)
    requires id !in records
    ensures |records[id := t]| == |records| + 1
  {
    assert records[id := t].Keys == records.Keys + {id};
    assert |records[id := t]| == |records[id := t].Keys| && |records| == |records.Keys|;
  }

  /** The records stay within their limit if and only if a shell is registered only while there is room
      for its record: agents are admitted and registered in one step. */
  lemma RecordsWithinIff(m: Manager, step: Step, config: Config)
    requires Inv(m) && Enabled(m, step) && m.workers <= m.records.Keys && |m.records| <= config.maxRecords
    ensures |Next(m, step, config).records| <= config.maxRecords <==>
            (step.RegisterShell? ==> |m.records| < config.maxRecords)
  {
    var m' := Next(m, step, config);
    if step.RegisterShell? {
      AddedCount(m.records, step.id, Task(Shell, m.run, step.state, false, true, false, step.done));
    } else if step.StartAgent? {
      EvictRecords(m, step.todo, config);
      var m1 := Evict(m, step.todo, config);
      KeysCount(m1.records, m.records);
      if HasCapacity(m1, config, true) {
        AddedCount(m1.records, step.id, Task(step.kind, m.run, Running, step.background, true, false, false));
      }
    } else {
      OtherStepRecords(m, step, config);
      KeysCount(m'.records, m.records);
    }
  }
}
