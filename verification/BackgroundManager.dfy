/**
 The manager object, whose methods are the atomic steps.
 */
module BackgroundManager {
  import opened Background
  import opened BackgroundStore
  import opened BackgroundAgents

  method ReviveAll(saved: seq<Saved>) returns (table: map<string, Task>)
    ensures table == Revived(saved)
  {
    table := map[];
    assert saved[|saved|..] == [];
    for i := |saved| downto 0
      invariant table == Revived(saved[i..])
    {
      assert saved[i..][1..] == saved[i + 1..];
      table := table[saved[i].id := Revive(saved[i].task)];
    }
    assert saved[0..] == saved;
  }

  /** The eviction loop from position `i` on still leads to `goal`. */
  ghost predicate Evicting(m: Manager, todo: seq<string>, i: nat, config: Config, goal: Manager) {
    i <= |todo| && Evict(m, todo[i..], config) == goal
  }

  lemma EvictStarts(m: Manager, todo: seq<string>, config: Config)
    ensures Evicting(m, todo, 0, config, Evict(m, todo, config))
  {
    assert todo[0..] == todo;
  }

  lemma EvictAdvance(m: Manager, todo: seq<string>, i: nat, config: Config, goal: Manager)
    requires i < |todo| && |m.records| >= config.maxRecords && Evicting(m, todo, i, config, goal)
    ensures var next := if Evictable(m, todo[i]) then m.(records := m.records - {todo[i]}) else m;
            Evicting(next, todo, i + 1, config, goal)
  {
    assert todo[i..][1..] == todo[i + 1..];
  }

  lemma EvictEnds(m: Manager, todo: seq<string>, i: nat, config: Config, goal: Manager)
    requires Evicting(m, todo, i, config, goal) && (i == |todo| || |m.records| < config.maxRecords)
    ensures m == goal
  {}

  class BackgroundTaskManager {
    const config: Config
    var activeRun: string
    var records: map<string, Task>
    var events: seq<Event>
    ghost var workers: set<string>
    ghost var starting: set<string>
    ghost var inflight: multiset<seq<Event>>
    ghost var used: set<string>
    ghost var announced: seq<string>

    ghost function View(): Manager
      reads this
    {
      Manager(activeRun, records, events, workers, starting, inflight, used, announced)
    }

    /** Every state between two methods: the invariant of all runs. */
    ghost predicate Valid()
      reads this
    {
      Inv(View()) && Quiet(View())
    }

    /** Reload from an accepted snapshot. */
    constructor (config: Config, saved: seq<Saved>, loaded: seq<Event>)
      requires Accepted(saved, loaded)
      ensures this.config == config && View() == Reload(saved, loaded) && Valid()
      ensures ActiveIds(View()) == {}
    {
      this.config := config;
      activeRun, events := "standalone", loaded;
      workers, starting, inflight, used, announced := {}, {}, multiset{}, ById(saved).Keys, [];
      var table := ReviveAll(saved);
      records := table;
      new;
      ByIdHas(saved);
      AnnounceAll(saved);
      ReloadAfterCrash(saved, loaded);
    }

    method AnnounceAll(saved: seq<Saved>)
      requires forall k :: 0 <= k < |saved| ==> saved[k].id in records
      modifies this
      ensures View() == AnnounceLost(old(View()), saved)
    {
      ghost var goal := AnnounceLost(View(), saved);
      assert saved[0..] == saved;
      for i := 0 to |saved|
        invariant forall k :: 0 <= k < |saved| ==> saved[k].id in records
        invariant goal == AnnounceLost(View(), saved[i..])
      {
        assert saved[i..][0] == saved[i] && saved[i..][1..] == saved[i + 1..];
        if records[saved[i].id].state == Lost { Announce(saved[i].id, Finished); }
      }
    }

    method Announce(id: string, kind: EventKind)
      requires id in records
      modifies this
      ensures View() == Enqueue(old(View()), id, kind)
      ensures old(Valid()) && id !in starting ==> Valid()
    {
      ghost var before := View();
      if Valid() && id !in starting {
        EnqueueKeeps(before, id, kind);
        EnqueueOnlyAbout(before, id, kind);
        OnlyAboutKeeps(before, Enqueue(before, id, kind), id);
      }
      var task, eventId := records[id], EventId(id, kind);
      if task.notified && kind == Finished { return; }
      var seen := false;
      for i := 0 to |events|
        invariant seen <==> exists k :: 0 <= k < i && events[k].eventId == eventId
      {
        if events[i].eventId == eventId { seen := true; }
      }
      if !seen {
        events := events + [Event(eventId, id, kind, task.owner, task.kind)];
        announced := announced + if kind == Finished then [id] else [];
      }
      if kind == Finished { records := records[id := task.(notified := true)]; }
    }

    method BeginRunWith(run: string)
      requires Valid()
      modifies this
      ensures Valid() && View() == Next(old(View()), BeginRun(run), config)
      ensures forall e :: e in events <==> e in old(events) && e.owner == run
    {
      StepKeepsInv(View(), BeginRun(run), config);
      FilterOk(OwnedBy(run), events);
      activeRun := run;
      events := Filter(OwnedBy(run), events);
    }

    method EvictUntilRoom(todo: seq<string>)
      modifies this`records
      ensures View() == Evict(old(View()), todo, config)
    {
      ghost var goal := Evict(View(), todo, config);
      EvictStarts(View(), todo, config);
      var i := 0;
      while i < |todo| && |records| >= config.maxRecords
        invariant 0 <= i <= |todo| && Evicting(View(), todo, i, config, goal)
      {
        EvictAdvance(View(), todo, i, config, goal);
        if MayEvict(todo[i]) { records := records - {todo[i]}; }
        i := i + 1;
      }
      EvictEnds(View(), todo, i, config, goal);
    }

    /** Evict what may be evicted until there is room, then say whether there is capacity. */
    method EnsureRoom(todo: seq<string>, agent: bool) returns (ok: bool)
      requires Valid()
      modifies this`records
      ensures Valid() && View() == Next(old(View()), EnsureCapacity(todo), config)
      ensures ok <==> RoomForOne(View(), config) && (agent ==> |RunningAgents(View())| < config.maxAgents)
    {
      StepKeepsInv(View(), EnsureCapacity(todo), config);
      EvictUntilRoom(todo);
      CapacityIff(View(), config, agent);
      var active := set id | id in records && Active(records[id].state);
      assert active == ActiveIds(View());
      ok := && |records| < config.maxRecords
            && |events| + 2 * |active| + 2 <= config.maxNotifications
            && (agent ==> |set id | id in active && records[id].kind != Shell| < config.maxAgents);
    }

    predicate MayEvict(id: string)
      reads this
      ensures MayEvict(id) == Evictable(View(), id)
    {
      && id in records && records[id].done && !HasPending(events, id)
      && (records[id].owner != activeRun || !records[id].required || records[id].state == Completed)
    }

    method RegisterShellTask(id: string, state: TaskState, done: bool)
      requires Valid() && id !in used
      modifies this
      ensures Valid() && View() == Next(old(View()), RegisterShell(id, state, done), config)
      ensures !HasPending(events, id)
    {
      StepKeepsInv(View(), RegisterShell(id, state, done), config);
      records := records[id := Task(Shell, activeRun, state, false, true, false, done)];
      used := used + {id};
      assert forall i :: 0 <= i < |events| ==> events[i] in events;
    }

    /** The rollback of a failed registration. */
    method ForgetShell(id: string)
      requires Valid() && (id in records ==> records[id].kind == Shell)
      requires RollbackSafe(View(), UnregisterShell(id))
      modifies this
      ensures Valid() && View() == Next(old(View()), UnregisterShell(id), config)
    {
      StepKeepsInv(View(), UnregisterShell(id), config);
      records := records - {id};
    }

    method StartAgentTask(id: string, kind: Kind, background: bool, todo: seq<string>) returns (ok: bool)
      requires Valid() && id !in used && kind != Shell
      modifies this
      ensures Valid() && View() == Next(old(View()), StartAgent(id, kind, background, todo), config)
      ensures var evicted := Evict(old(View()), todo, config);
              ok <==> RoomForOne(evicted, config) && |RunningAgents(evicted)| < config.maxAgents
      ensures id in records <==> ok
      ensures ok ==> records[id].state == Running && id in starting
    {
      AgentStartsIff(View(), id, kind, background, todo, config);
      StepKeepsInv(View(), StartAgent(id, kind, background, todo), config);
      EvictQuiet(View(), todo, config);
      ok := EnsureRoom(todo, true);
      if ok {
        records := records[id := Task(kind, activeRun, Running, background, true, false, false)];
        used, starting := used + {id}, starting + {id};
      }
    }

    /** The rollback when the first save of an agent failed: always safe, since nothing can have been
        said about the agent yet. */
    method ForgetAgent(id: string)
      requires Valid() && id in starting
      modifies this
      ensures Valid() && View() == Next(old(View()), UnregisterAgent(id), config)
      ensures forall e :: e in events ==> e.taskId != id
    {
      StepKeepsInv(View(), UnregisterAgent(id), config);
      assert Unheard(View(), id);
      records := records - {id};
      starting := starting - {id};
    }

    /** The first save of an agent is over; from here on it may be launched and give notice. */
    method ConfirmAgent(id: string)
      requires Valid() && id in starting
      modifies this
      ensures Valid() && View() == Next(old(View()), AgentSaved(id), config)
    {
      StepKeepsInv(View(), AgentSaved(id), config);
      starting := starting - {id};
    }

    method PublishShell(id: string, stalled: bool, state: TaskState)
      requires Valid() && id !in starting
      modifies this
      ensures Valid() && View() == Next(old(View()), if stalled then Stalled(id) else ShellFinished(id, state), config)
    {
      StepKeepsInv(View(), if stalled then Stalled(id) else ShellFinished(id, state), config);
      if id !in records { return; }
      if stalled {
        if records[id].backgrounded { Announce(id, InteractiveInput); }
      } else {
        records := records[id := records[id].(state := state)];
        if records[id].backgrounded { Announce(id, Finished); }
      }
    }

    method MarkInBackground(id: string, stalledTail: bool, state: TaskState)
      requires Valid() && id !in starting
      modifies this
      ensures Valid() && View() == Next(old(View()), MarkBackground(id, stalledTail, state), config)
    {
      StepKeepsInv(View(), MarkBackground(id, stalledTail, state), config);
      if id !in records { return; }
      ghost var m := View();
      records := records[id := records[id].(backgrounded := true)];
      assert View() == SetTask(m, id, m.records[id].(backgrounded := true));
      if stalledTail { Announce(id, InteractiveInput); }
      ghost var m2 := Flagged(m, id, stalledTail);
      assert View() == m2;
      if records[id].done {
        if records[id].kind == Shell { records := records[id := records[id].(state := state)]; }
        ghost var t := m2.records[id];
        assert View() == SetTask(m2, id, if t.kind == Shell then t.(state := state) else t);
        Announce(id, Finished);
      }
      assert View() == Marked(m, id, stalledTail, state);
    }

    /** The last stretch of an agent's worker. */
    method FinishAgent(id: string, state: TaskState)
      requires Valid() && id in workers && !Active(state)
      modifies this
      ensures Valid() && View() == Next(old(View()), AgentFinished(id, state), config)
    {
      StepKeepsInv(View(), AgentFinished(id, state), config);
      var backgrounded := records[id].backgrounded;
      records := records[id := records[id].(state := state, done := true)];
      workers := workers - {id};
      if backgrounded { Announce(id, Finished); }
    }

    /** The first half of `acknowledge`: take the events out before saving.  Nothing is lost between
        the outbox and what was taken. */
    method TakeAcknowledged(ids: set<string>) returns (taken: seq<Event>)
      requires Valid()
      modifies this
      ensures Valid() && View() == Next(old(View()), AckTake(ids), config)
      ensures taken in inflight && multiset(events) + multiset(taken) == multiset(old(events))
      ensures forall e :: e in old(events) ==> (e in taken <==> e.eventId in ids)
    {
      StepKeepsInv(View(), AckTake(ids), config);
      TakeSplits(ids, events);
      taken := Filter(IdIn(ids), events);
      events := Filter(IdNotIn(ids), events);
      inflight := inflight + multiset{taken};
    }

    /** The second half when the save failed: put back what is not there again.  No event is lost, and
        none is there twice. */
    method RestoreAcknowledged(taken: seq<Event>)
      requires Valid() && taken in inflight && RollbackSafe(View(), AckRestore(taken))
      modifies this
      ensures Valid() && View() == Next(old(View()), AckRestore(taken), config)
      ensures forall e :: e in old(events) ==> e in events
      ensures forall e :: e in taken ==> HasEvent(events, e.eventId)
    {
      StepKeepsInv(View(), AckRestore(taken), config);
      RestoreLosesNothing(View(), taken, config);
      ghost var goal := Next(View(), AckRestore(taken), config);
      events := Restored(events, taken);
      inflight := inflight - multiset{taken};
      assert View() == goal;
    }
  }
}
