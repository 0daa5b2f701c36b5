/**
 Runs that show the conditions of the other modules to be needed: from a fresh manager, every
 step possible when it happens.
 */
module BackgroundRuns {
  import opened Background
  import opened BackgroundStore
  import opened BackgroundCapacity

  /** Some run leads from a fresh manager to m. */
  ghost predicate Reached(m: Manager, config: Config) {
    exists steps :: Run(FRESH, steps, config) && Final(FRESH, steps, config) == m
  }

  lemma ReachedStart(config: Config)
    ensures Reached(FRESH, config)
  {
    assert Run(FRESH, [], config) && Final(FRESH, [], config) == FRESH;
  }

  lemma {:induction false} RunSnoc(m: Manager, steps: seq<Step>, step: Step, config: Config)
    requires Run(m, steps, config)
    requires var r := Final(m, steps, config); Enabled(r, step) && RollbackSafe(r, step) && r.workers <= r.records.Keys
    ensures Run(m, steps + [step], config)
    ensures Final(m, steps + [step], config) == Next(Final(m, steps, config), step, config)
    decreases |steps|
  {
    if steps == [] {
      assert steps + [step] == [step] && [step][1..] == [];
    } else {
      assert (steps + [step])[1..] == steps[1..] + [step];
      RunSnoc(Next(m, steps[0], config), steps[1..], step, config);
    }
  }

  /** One more step. */
  lemma ReachedNext(m: Manager, step: Step, config: Config)
    requires Reached(m, config) && Enabled(m, step) && RollbackSafe(m, step) && m.workers <= m.records.Keys
    ensures Reached(Next(m, step, config), config)
  {
    var steps :| Run(FRESH, steps, config) && Final(FRESH, steps, config) == m;
    RunSnoc(FRESH, steps, step, config);
  }

  // ----- Many running shells

  function RunningShell(): Task { Task(Shell, "standalone", Running, false, true, false, false) }

  function Shells(ids: set<string>): map<string, Task> { map id | id in ids :: RunningShell() }

  /** A fresh manager after the given shells were registered. */
  function Crowd(ids: set<string>): Manager {
    Manager("standalone", Shells(ids), [], {}, {}, multiset{}, ids, [])
  }

  lemma CrowdNext(ids: set<string>, id: string, config: Config)
    requires id !in ids
    ensures Next(Crowd(ids), RegisterShell(id, Running, false), config) == Crowd(ids + {id})
  {}

  lemma {:induction false} CrowdReached(ids: set<string>, config: Config)
    ensures Reached(Crowd(ids), config)
    decreases |ids|
  {
    if ids == {} {
      ReachedStart(config);
      assert Crowd(ids) == FRESH;
    } else {
      var id :| id in ids;
      CrowdReached(ids - {id}, config);
      ReachedNext(Crowd(ids - {id}), RegisterShell(id, Running, false), config);
      CrowdNext(ids - {id}, id, config);
      assert (ids - {id}) + {id} == ids;
    }
  }

  lemma CrowdReserved(ids: set<string>)
    ensures Reserved(Crowd(ids)) == 2 * |ids|
  {
    assert ActiveIds(Crowd(ids)) == ids;
  }

  lemma CrowdCount(ids: set<string>)
    ensures |Crowd(ids).records| == |ids|
  {
    assert Crowd(ids).records.Keys == ids && |Crowd(ids).records| == |Crowd(ids).records.Keys|;
  }

  lemma CrowdHasRoom(ids: set<string>, config: Config)
    requires |ids| < config.maxRecords && 2 * |ids| + 2 <= config.maxNotifications
    ensures HasCapacity(Crowd(ids), config, false)
  {
    CrowdCount(ids);
    assert ActiveIds(Crowd(ids)) == ids;
  }

  /** Two shells that both passed the capacity test while there was room for one, and are registered
      after it, overshoot the limit: for every limit, with as many running tasks as leave that room. */
  lemma LateRegistrationOvershoots(ids: set<string>, a: string, b: string, config: Config)
    requires a !in ids && b !in ids && a != b && |ids| < config.maxRecords
    requires 2 * |ids| + 2 <= config.maxNotifications < 2 * |ids| + 4
    ensures Reached(Crowd(ids), config) && HasCapacity(Crowd(ids), config, false)
    ensures Reached(Crowd(ids + {a, b}), config)
    ensures Next(Next(Crowd(ids), RegisterShell(a, Running, false), config), RegisterShell(b, Running, false), config)
            == Crowd(ids + {a, b})
    ensures Reserved(Crowd(ids + {a, b})) == 2 * |ids| + 4 > config.maxNotifications
  {
    CrowdReached(ids, config);
    CrowdReached(ids + {a, b}, config);
    CrowdHasRoom(ids, config);
    CrowdNext(ids, a, config);
    CrowdNext(ids + {a}, b, config);
    CrowdReserved(ids + {a, b});
    assert ids + {a, b} == ids + {a} + {b};
  }

  lemma CrowdInv(ids: set<string>)
    ensures Inv(Crowd(ids))
  {}

  /** Under the default limits, two shells registered like that make 129 records, and what is saved then is
      refused when it is loaded. */
  lemma TooManyRecordsRefused(ids: set<string>, a: string, b: string)
    requires a !in ids && b !in ids && a != b && |ids| == 127
    ensures var config := Config(128, 256, 8);
            && Reached(Crowd(ids), config) && HasCapacity(Crowd(ids), config, false)
            && Reached(Crowd(ids + {a, b}), config)
            && (exists saved :: SnapshotOf(Crowd(ids + {a, b}), saved))
            && forall saved :: SnapshotOf(Crowd(ids + {a, b}), saved) ==> !Accepted(saved, Crowd(ids + {a, b}).events)
  {
    var config, m := Config(128, 256, 8), Crowd(ids + {a, b});
    LateRegistrationOvershoots(ids, a, b, config);
    CrowdInv(ids + {a, b});
    CrowdCount(ids + {a, b});
    var some := SnapshotExists(m.records);
    assert SnapshotOf(m, some);
    forall saved | SnapshotOf(m, saved) ensures !Accepted(saved, m.events) { SavedStateLoadsIff(m, saved); }
  }

  // ----- A shell that ended among them

  function Stall(a: string): Event { Event(EventId(a, InteractiveInput), a, InteractiveInput, "standalone", Shell) }
  function Finish(a: string): Event { Event(EventId(a, Finished), a, Finished, "standalone", Shell) }
  function Both(a: string): seq<Event> { [Stall(a), Finish(a)] }

  /** Running shells, and one more in the given state. */
  function With(ids: set<string>, a: string, t: Task, events: seq<Event>, inflight: multiset<seq<Event>>,
                announced: seq<string>): Manager
  {
    Manager("standalone", Shells(ids)[a := t], events, {}, {}, inflight, ids + {a}, announced)
  }

  function InBackground(): Task { RunningShell().(backgrounded := true, done := true) }
  function Ended(state: TaskState): Task { InBackground().(state := state, notified := true) }

  /** The shell went to the background, asked for input and ended; both notices are pending. */
  function Noticed(ids: set<string>, a: string, state: TaskState): Manager {
    With(ids, a, Ended(state), Both(a), multiset{}, [a])
  }

  lemma JoinedReached(ids: set<string>, a: string, config: Config)
    requires a !in ids
    ensures Reached(With(ids, a, RunningShell(), [], multiset{}, []), config)
  {
    CrowdReached(ids + {a}, config);
    assert Shells(ids + {a}) == Shells(ids)[a := RunningShell()];
  }

  lemma InBackgroundReached(ids: set<string>, a: string, config: Config)
    requires a !in ids
    ensures Reached(With(ids, a, InBackground(), [], multiset{}, []), config)
  {
    JoinedReached(ids, a, config);
    var m1 := With(ids, a, RunningShell(), [], multiset{}, []);
    var m2 := With(ids, a, RunningShell().(backgrounded := true), [], multiset{}, []);
    ReachedNext(m1, SetBackground(a), config);
    assert Next(m1, SetBackground(a), config) == m2;
    ReachedNext(m2, ProcessDone(a), config);
    assert Next(m2, ProcessDone(a), config) == With(ids, a, InBackground(), [], multiset{}, []);
  }

  lemma NoticedReached(ids: set<string>, a: string, state: TaskState, config: Config)
    requires a !in ids
    ensures Reached(Noticed(ids, a, state), config)
  {
    InBackgroundReached(ids, a, config);
    var m1 := With(ids, a, InBackground(), [], multiset{}, []);
    var m2 := With(ids, a, InBackground(), [Stall(a)], multiset{}, []);
    ReachedNext(m1, Stalled(a), config);
    assert Next(m1, Stalled(a), config) == m2;
    ReachedNext(m2, ShellFinished(a, state), config);
    FinishingAppends(ids, a, state, config);
  }

  lemma FinishingAppends(ids: set<string>, a: string, state: TaskState, config: Config)
    requires a !in ids
    ensures Next(With(ids, a, InBackground(), [Stall(a)], multiset{}, []), ShellFinished(a, state), config)
            == Noticed(ids, a, state)
  {
    EventIdInjective(a, InteractiveInput, a, Finished);
    assert !HasEvent([Stall(a)], EventId(a, Finished));
    assert [Stall(a)] + [Finish(a)] == Both(a);
  }

  /** A state with an inconsistent outbox is refused, however it is saved. */
  lemma InconsistentRefused(m: Manager)
    requires !Consistent(m.records, m.events)
    ensures forall saved :: SnapshotOf(m, saved) ==> !Accepted(saved, m.events)
  {
    forall saved | SnapshotOf(m, saved) ensures !Accepted(saved, m.events) { SnapshotConsistentIff(m, saved); }
  }

  /** The rollback of a registration is not safe when the shell went to the background and was
      stopped while its first save was under way: a run leads there, and no snapshot of the state
      after it is accepted. */
  lemma RegistrationRollbackBreaks(ids: set<string>, a: string, config: Config)
    requires a !in ids
    ensures var m := Noticed(ids, a, Stopped);
            && Reached(m, config) && Enabled(m, UnregisterShell(a)) && !RollbackSafe(m, UnregisterShell(a))
            && var r := Next(m, UnregisterShell(a), config);
               forall saved :: SnapshotOf(r, saved) ==> !Accepted(saved, r.events)
  {
    NoticedReached(ids, a, Stopped, config);
    var m := Noticed(ids, a, Stopped);
    assert m.events[0].taskId == a;
    var r := Next(m, UnregisterShell(a), config);
    assert Stall(a) in r.events && a !in r.records;
    InconsistentRefused(r);
  }

  // ----- Its notices being acknowledged

  function Taken(ids: set<string>, a: string, state: TaskState): Manager {
    With(ids, a, Ended(state), [], multiset{Both(a)}, [a])
  }

  lemma FilterTwo(keep: Event -> bool, x: Event, y: Event)
    ensures Filter(keep, [x, y]) == (if keep(x) then [x] else []) + (if keep(y) then [y] else [])
  {
    assert [x, y][1..] == [y] && [y][1..] == [];
    assert Filter(keep, [y]) == if keep(y) then [y] else [];
  }

  lemma CountTwo(ids: set<string>, a: string)
    requires a !in ids
    ensures CountIn(ids, Both(a)) == 0
  {
    assert Both(a)[1..] == [Finish(a)] && [Finish(a)][1..] == [];
    assert CountIn(ids, [Finish(a)]) == 0;
  }

  lemma TakesBoth(a: string)
    ensures var ids := {EventId(a, InteractiveInput), EventId(a, Finished)};
            Filter(IdIn(ids), Both(a)) == Both(a) && Filter(IdNotIn(ids), Both(a)) == []
  {
    var ids := {EventId(a, InteractiveInput), EventId(a, Finished)};
    FilterTwo(IdIn(ids), Stall(a), Finish(a));
    FilterTwo(IdNotIn(ids), Stall(a), Finish(a));
    assert [Stall(a)] + [Finish(a)] == Both(a);
  }

  lemma TakenReached(ids: set<string>, a: string, state: TaskState, config: Config)
    requires a !in ids
    ensures Reached(Taken(ids, a, state), config)
  {
    NoticedReached(ids, a, state, config);
    var step := AckTake({EventId(a, InteractiveInput), EventId(a, Finished)});
    ReachedNext(Noticed(ids, a, state), step, config);
    TakesBoth(a);
    assert Next(Noticed(ids, a, state), step, config) == Taken(ids, a, state);
  }

  lemma NothingPending(taken: seq<Event>)
    ensures Filter(AbsentFrom([]), taken) == taken
  {
    FilterAll(AbsentFrom([]), taken);
  }

  /** The state after the ended task was evicted. */
  function Evicted(ids: set<string>, a: string): Manager {
    Taken(ids, a, Completed).(records := Shells(ids))
  }

  lemma EvictedReached(ids: set<string>, a: string, config: Config)
    requires a !in ids && config.maxRecords <= |ids| + 1
    ensures Reached(Evicted(ids, a), config)
  {
    TakenReached(ids, a, Completed, config);
    var t := Taken(ids, a, Completed);
    ReachedNext(t, EnsureCapacity([a]), config);
    AddedCount(Shells(ids), a, Ended(Completed));
    CrowdCount(ids);
    assert t.records - {a} == Shells(ids);
    assert [a][1..] == [] && Evictable(t, a);
    assert Evict(t, [a], config) == Evict(Evicted(ids, a), [], config) == Evicted(ids, a);
  }

  /** The rollback of an acknowledgement is not safe after an eviction: for every limit on records a run
      leads there, and no snapshot of the state after it is accepted. */
  lemma AckRollbackBreaks(ids: set<string>, a: string, config: Config)
    requires a !in ids && config.maxRecords <= |ids| + 1
    ensures var m := Evicted(ids, a);
            && Reached(m, config) && Enabled(m, AckRestore(Both(a))) && !RollbackSafe(m, AckRestore(Both(a)))
            && var r := Next(m, AckRestore(Both(a)), config);
               forall saved :: SnapshotOf(r, saved) ==> !Accepted(saved, r.events)
  {
    EvictedReached(ids, a, config);
    var m := Evicted(ids, a);
    NothingPending(Both(a));
    assert Both(a)[0] == Stall(a) && Stall(a) in Both(a);
    var r := Next(m, AckRestore(Both(a)), config);
    assert r.events == Both(a) + [] == Both(a);
    InconsistentRefused(r);
  }

  // ----- Notices that find no room

  /** The ended shell among running ones leaves room for one more task exactly when they do. */
  lemma EndedLeavesRoom(ids: set<string>, a: string, t: Task, inflight: multiset<seq<Event>>, announced: seq<string>,
                        config: Config)
    requires a !in ids && !Active(t.state) && |ids| + 1 < config.maxRecords && 2 * |ids| + 2 <= config.maxNotifications
    ensures var m := With(ids, a, t, [], inflight, announced);
            HasCapacity(m, config, false) && ActiveIds(m) == ids && Reserved(m) == 2 * |ids|
  {
    var m := With(ids, a, t, [], inflight, announced);
    AddedCount(Shells(ids), a, t);
    CrowdCount(ids);
    assert ActiveIds(m) == ids;
  }

  /** Another shell registered beside the ended one. */
  lemma BesideReserved(ids: set<string>, a: string, b: string, t: Task, inflight: multiset<seq<Event>>,
                       announced: seq<string>, config: Config)
    requires a !in ids && b !in ids && a != b && !Active(t.state)
    ensures var m := Next(With(ids, a, t, [], inflight, announced), RegisterShell(b, Running, false), config);
            && m.records == Shells(ids)[a := t][b := RunningShell()] && m.events == [] && m.inflight == inflight
            && ActiveIds(m) == ids + {b} && Reserved(m) == 2 * |ids| + 2
  {
    var m := Next(With(ids, a, t, [], inflight, announced), RegisterShell(b, Running, false), config);
    assert ActiveIds(m) == ids + {b};
  }

  /** A rolled-back acknowledgement overshoots the limit although every task was admitted by the
      capacity test: the places of the taken notices went to another task meanwhile. */
  lemma RestoreOvershoots(ids: set<string>, a: string, b: string, config: Config)
    requires a !in ids && b !in ids && a != b && |ids| + 1 < config.maxRecords
    requires 2 * |ids| + 2 <= config.maxNotifications < 2 * |ids| + 4
    ensures var t := Taken(ids, a, Completed);
            var m := Next(t, RegisterShell(b, Running, false), config);
            && Reached(t, config) && HasCapacity(t, config, false) && Reached(m, config)
            && Enabled(m, AckRestore(Both(a))) && RollbackSafe(m, AckRestore(Both(a)))
            && Reserved(m) == 2 * |ids| + 2 <= config.maxNotifications
            && Reserved(Next(m, AckRestore(Both(a)), config)) == 2 * |ids| + 4 > config.maxNotifications
  {
    TakenReached(ids, a, Completed, config);
    EndedLeavesRoom(ids, a, Ended(Completed), multiset{Both(a)}, [a], config);
    ReachedNext(Taken(ids, a, Completed), RegisterShell(b, Running, false), config);
    BesideReserved(ids, a, b, Ended(Completed), multiset{Both(a)}, [a], config);
    BothReturn(ids, a, b, config);
  }

  lemma BothReturn(ids: set<string>, a: string, b: string, config: Config)
    requires a !in ids && b !in ids && a != b
    ensures var m := Next(Taken(ids, a, Completed), RegisterShell(b, Running, false), config);
            && Enabled(m, AckRestore(Both(a))) && RollbackSafe(m, AckRestore(Both(a)))
            && Reserved(Next(m, AckRestore(Both(a)), config)) == Reserved(m) + 2
  {
    var m := Next(Taken(ids, a, Completed), RegisterShell(b, Running, false), config);
    BesideReserved(ids, a, b, Ended(Completed), multiset{Both(a)}, [a], config);
    BothReturning(m, ids + {b}, a);
    RestoreWithinIff(m, Both(a), config);
  }

  lemma BothReturning(m: Manager, active: set<string>, a: string)
    requires m.events == [] && ActiveIds(m) == active && a !in active
    ensures Returning(m, Both(a)) == 2
  {
    NothingPending(Both(a));
    CountTwo(active, a);
  }

  /** The shell ended in the foreground, so without a notice. */
  function EndedQuietly(): Task { RunningShell().(done := true, state := Completed) }

  lemma QuietlyReached(ids: set<string>, a: string, config: Config)
    requires a !in ids
    ensures Reached(With(ids, a, EndedQuietly(), [], multiset{}, []), config)
  {
    JoinedReached(ids, a, config);
    var m1 := With(ids, a, RunningShell(), [], multiset{}, []);
    var m2 := With(ids, a, RunningShell().(done := true), [], multiset{}, []);
    ReachedNext(m1, ProcessDone(a), config);
    assert Next(m1, ProcessDone(a), config) == m2;
    ReachedNext(m2, ShellFinished(a, Completed), config);
    assert Next(m2, ShellFinished(a, Completed), config) == With(ids, a, EndedQuietly(), [], multiset{}, []);
  }

  lemma TwoNotices(m: Manager, a: string)
    requires m.events == [] && a in m.records && m.records[a] == EndedQuietly()
    ensures Room(m, MarkBackground(a, true, Completed)) == 2
  {}

  /** A command that ended while its first save was under way, and is moved to the background after it,
      overshoots the limit with its notices: another task was admitted meanwhile. */
  lemma LateNoticeOvershoots(ids: set<string>, a: string, b: string, config: Config)
    requires a !in ids && b !in ids && a != b && |ids| + 1 < config.maxRecords
    requires 2 * |ids| + 2 <= config.maxNotifications < 2 * |ids| + 4
    ensures var t := With(ids, a, EndedQuietly(), [], multiset{}, []);
            var m := Next(t, RegisterShell(b, Running, false), config);
            var step := MarkBackground(a, true, Completed);
            && Reached(t, config) && HasCapacity(t, config, false) && Reached(m, config) && Enabled(m, step)
            && Reserved(m) == 2 * |ids| + 2 <= config.maxNotifications
            && Reserved(Next(m, step, config)) == 2 * |ids| + 4 > config.maxNotifications
  {
    QuietlyReached(ids, a, config);
    EndedLeavesRoom(ids, a, EndedQuietly(), multiset{}, [], config);
    ReachedNext(With(ids, a, EndedQuietly(), [], multiset{}, []), RegisterShell(b, Running, false), config);
    LateNoticesLoad(ids, a, b, config);
  }

  lemma LateNoticesLoad(ids: set<string>, a: string, b: string, config: Config)
    requires a !in ids && b !in ids && a != b
    ensures var m := Next(With(ids, a, EndedQuietly(), [], multiset{}, []), RegisterShell(b, Running, false), config);
            Reserved(m) == 2 * |ids| + 2
            && Reserved(Next(m, MarkBackground(a, true, Completed), config)) == 2 * |ids| + 4
  {
    var m := Next(With(ids, a, EndedQuietly(), [], multiset{}, []), RegisterShell(b, Running, false), config);
    BesideReserved(ids, a, b, EndedQuietly(), multiset{}, [], config);
    TwoNotices(m, a);
    EndedStepWithinIff(m, MarkBackground(a, true, Completed), config);
  }

  /** A record evicted while its last notice is being acknowledged makes the rollback unsafe:
      in any such state the two steps below are possible, and the restored notice has no task. */
  lemma EvictionDuringAckIsUnsafe(m: Manager, e: Event, config: Config)
    requires Inv(m) && m.workers <= m.records.Keys && e in m.events && |m.records| >= config.maxRecords
    requires forall f :: f in m.events && f.taskId == e.taskId ==> f == e
    requires var t := m.records[e.taskId]; t.done && (t.owner != m.run || !t.required || t.state == Completed)
    ensures var taken := Filter(IdIn({e.eventId}), m.events);
            var during := Next(m, AckTake({e.eventId}), config);
            var evicted := Next(during, EnsureCapacity([e.taskId]), config);
            Enabled(evicted, AckRestore(taken)) && !RollbackSafe(evicted, AckRestore(taken))
  {
    var ids := {e.eventId};
    var taken, during := Filter(IdIn(ids), m.events), Next(m, AckTake(ids), config);
    FilterOk(IdIn(ids), m.events);
    FilterOk(IdNotIn(ids), m.events);
    assert e in taken && e.eventId in ids;
    forall i | 0 <= i < |during.events|
      ensures during.events[i].taskId != e.taskId && during.events[i].eventId != e.eventId
    {
      assert during.events[i] in during.events;
    }
    assert Evictable(during, e.taskId);
    assert [e.taskId][1..] == [];
    assert Evict(during, [e.taskId], config) == during.(records := during.records - {e.taskId});
  }
}
