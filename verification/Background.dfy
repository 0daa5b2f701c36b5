/**
 Background tasks: records, the notification outbox, crash reload and rollback.

 Every stretch of code between two awaits is one atomic step, and a scheduler may interleave
 the steps freely.  Dictionary iteration order is a parameter of the steps that iterate.
 */
module Background {

  datatype Kind = Shell | Agent | Teammate

  datatype TaskState = Pending | Running | Completed | Failed | Stopped | Lost | TimedOut | Deadline
                     | Interrupted | MaxSteps | NoProgress | Unverified | Blocked | Cancelled

  predicate Active(s: TaskState) { s == Pending || s == Running }

  datatype EventKind = Finished | InteractiveInput

  datatype Task = Task(kind: Kind, owner: string, state: TaskState,
                       backgrounded: bool, required: bool, notified: bool, done: bool)

  datatype Event = Event(eventId: string, taskId: string, kind: EventKind, owner: string, taskType: Kind)

  function KindName(k: EventKind): string {
    match k
    case Finished => "finished"
    case InteractiveInput => "interactive_input"
  }

  function EventId(id: string, kind: EventKind): string {
    id + ":" + KindName(kind)
  }

  /** An event id names one task and one kind. */
  lemma EventIdInjective(id: string, kind: EventKind, id': string, kind': EventKind)
    ensures EventId(id, kind) == EventId(id', kind') <==> id == id' && kind == kind'
  {
    var a, b := EventId(id, kind), EventId(id', kind');
    if a == b {
      assert a[|a| - 1] == KindName(kind)[|KindName(kind)| - 1];
      assert b[|b| - 1] == KindName(kind')[|KindName(kind')| - 1];
      assert KindName(Finished)[7] == 'd' && KindName(InteractiveInput)[16] == 't';
      assert kind == kind';
      assert id == a[..|id|] && id' == b[..|id'|];
    }
  }

  /** The manager, with the live workers, the agents whose first save is under way, the unfinished
      acknowledgements, which task ids were ever used, and for which tasks a "finished" event was
      ever appended. */
  datatype Manager = Manager(
    run: string, records: map<string, Task>, events: seq<Event>,
    workers: set<string>, starting: set<string>, inflight: multiset<seq<Event>>, used: set<string>,
    announced: seq<string>)

  datatype Config = Config(maxRecords: nat, maxNotifications: nat, maxAgents: nat)

  // ----- What a saved state must satisfy to be loaded again

  datatype Saved = Saved(id: string, task: Task)

  predicate Matches(e: Event, t: Task) {
    e.owner == t.owner && e.taskType == t.kind
  }

  ghost predicate DistinctIds(events: seq<Event>) {
    forall i, j :: 0 <= i < j < |events| ==> events[i].eventId != events[j].eventId
  }

  ghost predicate Consistent(records: map<string, Task>, events: seq<Event>) {
    forall e :: e in events ==>
      e.eventId == EventId(e.taskId, e.kind) && e.taskId in records && Matches(e, records[e.taskId])
  }

  ghost function ById(records: seq<Saved>): map<string, Task> {
    if records == [] then map[]
    else ById(records[1..])[records[0].id := records[0].task]
  }

  ghost predicate DistinctRecords(records: seq<Saved>) {
    forall i, j :: 0 <= i < j < |records| ==> records[i].id != records[j].id
  }

  /** The acceptance test of `load`, on the fields this model keeps. */
  ghost predicate Accepted(records: seq<Saved>, events: seq<Event>) {
    && |records| <= 128 && |events| <= 256
    && DistinctRecords(records)
    && Consistent(ById(records), events)
    && DistinctIds(events)
  }

  // ----- Atomic updates

  function Filter(keep: Event -> bool, events: seq<Event>): seq<Event> {
    if events == [] then []
    else if keep(events[0]) then [events[0]] + Filter(keep, events[1..])
    else Filter(keep, events[1..])
  }

  function OwnedBy(run: string): Event -> bool { (e: Event) => e.owner == run }
  function IdIn(ids: set<string>): Event -> bool { (e: Event) => e.eventId in ids }
  function IdNotIn(ids: set<string>): Event -> bool { (e: Event) => e.eventId !in ids }
  function AbsentFrom(events: seq<Event>): Event -> bool { (e: Event) => !HasEvent(events, e.eventId) }

  predicate HasEvent(events: seq<Event>, eventId: string) {
    exists i :: 0 <= i < |events| && events[i].eventId == eventId
  }

  function SetTask(m: Manager, id: string, t: Task): Manager {
    m.(records := m.records[id := t])
  }

  /** `_enqueue`: at most one event per task and kind is pending, and "finished" is said once. */
  function Enqueue(m: Manager, id: string, kind: EventKind): Manager
    requires id in m.records
  {
    var t := m.records[id];
    if t.notified && kind == Finished then m
    else
      var eid := EventId(id, kind);
      var m1 := if HasEvent(m.events, eid) then m
                else m.(events := m.events + [Event(eid, id, kind, t.owner, t.kind)],
                        announced := m.announced + if kind == Finished then [id] else []);
      if kind == Finished then SetTask(m1, id, t.(notified := true)) else m1
  }

  predicate HasPending(events: seq<Event>, id: string) {
    exists i :: 0 <= i < |events| && events[i].taskId == id
  }

  predicate Evictable(m: Manager, id: string) {
    && id in m.records && m.records[id].done && !HasPending(m.events, id)
    && (m.records[id].owner != m.run || !m.records[id].required || m.records[id].state == Completed)
  }

  /** The eviction loop of `ensure_capacity`, over the records in the order `todo`. */
  function Evict(m: Manager, todo: seq<string>, config: Config): Manager
    decreases |todo|
  {
    if todo == [] || |m.records| < config.maxRecords then m
    else if Evictable(m, todo[0]) then Evict(m.(records := m.records - {todo[0]}), todo[1..], config)
    else Evict(m, todo[1..], config)
  }

  function ActiveIds(m: Manager): set<string> {
    set id | id in m.records && Active(m.records[id].state)
  }

  predicate HasCapacity(m: Manager, config: Config, agent: bool) {
    && |m.records| < config.maxRecords
    && |m.events| + 2 * |ActiveIds(m)| + 2 <= config.maxNotifications
    && (agent ==> |set id | id in ActiveIds(m) && m.records[id].kind != Shell| < config.maxAgents)
  }

  function Register(m: Manager, id: string, t: Task): Manager {
    m.(records := m.records[id := t], used := m.used + {id})
  }

  // ----- Steps

  datatype Step =
    | BeginRun(run: string)
    | EnsureCapacity(todo: seq<string>)
    | RegisterShell(id: string, state: TaskState, done: bool)
    | UnregisterShell(id: string)
    | StartAgent(id: string, kind: Kind, background: bool, todo: seq<string>)
    | UnregisterAgent(id: string)
    | AgentSaved(id: string)
    | Launch(id: string)
    | SetBackground(id: string)
    | Stalled(id: string)
    | ShellFinished(id: string, state: TaskState)
    | MarkBackground(id: string, stalledTail: bool, state: TaskState)
    | AgentFinished(id: string, state: TaskState)
    | EndUnlaunched(id: string)
    | Withdraw(id: string)
    | ShellState(id: string, state: TaskState)
    | ProcessDone(id: string)
    | AckTake(ids: set<string>)
    | AckDone(taken: seq<Event>)
    | AckRestore(taken: seq<Event>)

  /** When a step can occur: fresh ids, live workers, and saves and acknowledgements under way.  An
      agent is handed to its caller, and can give notice, only when its first save is over. */
  predicate Enabled(m: Manager, step: Step) {
    match step
    case RegisterShell(id, _, _) => id !in m.used
    case StartAgent(id, kind, _, _) => id !in m.used && kind != Shell
    case UnregisterAgent(id) => id in m.starting
    case AgentSaved(id) => id in m.starting
    case UnregisterShell(id) => id in m.records ==> m.records[id].kind == Shell
    case Launch(id) => id in m.records && !m.records[id].done && m.records[id].kind != Shell && id !in m.starting
    case Stalled(id) => id !in m.starting
    case ShellFinished(id, _) => id !in m.starting
    case MarkBackground(id, _, _) => id !in m.starting
    case AgentFinished(id, state) => id in m.workers && !Active(state)
    case AckDone(taken) => taken in m.inflight
    case AckRestore(taken) => taken in m.inflight
    case _ => true
  }

  function Flagged(m: Manager, id: string, stalledTail: bool): Manager
    requires id in m.records
  {
    var m1 := SetTask(m, id, m.records[id].(backgrounded := true));
    if stalledTail then Enqueue(m1, id, InteractiveInput) else m1
  }

  function Concluded(m: Manager, id: string, state: TaskState): Manager
    requires id in m.records
  {
    var t := m.records[id];
    if !t.done then m
    else Enqueue(SetTask(m, id, if t.kind == Shell then t.(state := state) else t), id, Finished)
  }

  function Marked(m: Manager, id: string, stalledTail: bool, state: TaskState): Manager
    requires id in m.records
  {
    Concluded(Flagged(m, id, stalledTail), id, state)
  }

  function Ended(m: Manager, id: string, state: TaskState): Manager
    requires id in m.records
  {
    var m1 := SetTask(m, id, m.records[id].(state := state, done := true)).(workers := m.workers - {id});
    if m.records[id].backgrounded then Enqueue(m1, id, Finished) else m1
  }

  /** Events put back in front, leaving out those that are pending again. */
  function Restored(events: seq<Event>, taken: seq<Event>): seq<Event> {
    Filter(AbsentFrom(events), taken) + events
  }

  function Next(m: Manager, step: Step, config: Config): Manager
    requires Enabled(m, step) && m.workers <= m.records.Keys
  {
    match step
    case BeginRun(run) => m.(run := run, events := Filter(OwnedBy(run), m.events))
    case EnsureCapacity(todo) => Evict(m, todo, config)
    case RegisterShell(id, state, done) =>
      Register(m, id, Task(Shell, m.run, state, false, true, false, done))
    case UnregisterShell(id) => m.(records := m.records - {id})
    case StartAgent(id, kind, background, todo) =>
      var m1 := Evict(m, todo, config);
      if HasCapacity(m1, config, true)
      then Register(m1, id, Task(kind, m.run, Running, background, true, false, false)).(starting := m.starting + {id})
      else m1
    case UnregisterAgent(id) => m.(records := m.records - {id}, starting := m.starting - {id})
    case AgentSaved(id) => m.(starting := m.starting - {id})
    case Launch(id) => m.(workers := m.workers + {id})
    case SetBackground(id) =>
      if id in m.records && Active(m.records[id].state)
      then SetTask(m, id, m.records[id].(backgrounded := true)) else m
    case Stalled(id) =>
      if id in m.records && m.records[id].backgrounded then Enqueue(m, id, InteractiveInput) else m
    case ShellFinished(id, state) =>
      if id !in m.records then m
      else
        var m1 := SetTask(m, id, m.records[id].(state := state));
        if m.records[id].backgrounded then Enqueue(m1, id, Finished) else m1
    case MarkBackground(id, stalledTail, state) => if id in m.records then Marked(m, id, stalledTail, state) else m
    case AgentFinished(id, state) => Ended(m, id, state)
    case EndUnlaunched(id) =>
      if id in m.records && m.records[id].kind != Shell && !m.records[id].done
      then SetTask(m, id, m.records[id].(state := Stopped, done := true)).(workers := m.workers - {id}) else m
    case Withdraw(id) => if id in m.records then SetTask(m, id, m.records[id].(required := false)) else m
    case ShellState(id, state) =>
      if id in m.records && m.records[id].kind == Shell then SetTask(m, id, m.records[id].(state := state)) else m
    case ProcessDone(id) =>
      if id in m.records && m.records[id].kind == Shell then SetTask(m, id, m.records[id].(done := true)) else m
    case AckTake(ids) =>
      m.(events := Filter(IdNotIn(ids), m.events),
         inflight := m.inflight + multiset{Filter(IdIn(ids), m.events)})
    case AckDone(taken) => m.(inflight := m.inflight - multiset{taken})
    case AckRestore(taken) =>
      m.(events := Restored(m.events, taken), inflight := m.inflight - multiset{taken})
  }

  // ----- The invariant

  /** Events taken by an unfinished acknowledgement: well named, and true of the task if it is still there. */
  ghost predicate TakenOk(m: Manager, taken: seq<Event>) {
    && DistinctIds(taken)
    && forall e :: e in taken ==>
         && e.eventId == EventId(e.taskId, e.kind) && e.taskId in m.used
         && (e.taskId in m.records ==> Matches(e, m.records[e.taskId]))
  }

  ghost predicate Inv(m: Manager) {
    && Consistent(m.records, m.events) && DistinctIds(m.events)
    && m.records.Keys <= m.used
    && (forall id :: id in m.workers ==> id in m.records && !m.records[id].done && m.records[id].kind != Shell)
    && (forall taken :: taken in m.inflight ==> TakenOk(m, taken))
    && LogOk(m)
  }

  /** "Finished" was enqueued at most once per task, and any task it was enqueued for knows it. */
  ghost predicate LogOk(m: Manager) {
    && (forall i, j :: 0 <= i < j < |m.announced| ==> m.announced[i] != m.announced[j])
    && (forall id :: id in m.announced ==> id in m.used && (id in m.records ==> m.records[id].notified))
  }

  /** Nothing pending or taken is about the task. */
  ghost predicate Unheard(m: Manager, id: string) {
    && (forall e :: e in m.events ==> e.taskId != id)
    && forall taken, e :: taken in m.inflight && e in taken ==> e.taskId != id
  }

  /** An agent whose first save is under way has no worker and gave no notice. */
  ghost predicate Quiet(m: Manager) {
    forall id :: id in m.starting ==> id in m.used && id !in m.workers && Unheard(m, id)
  }

  // ----- What the atomic updates keep

  lemma {:induction false} FilterOk(keep: Event -> bool, events: seq<Event>)
    ensures forall e :: e in Filter(keep, events) <==> e in events && keep(e)
    ensures DistinctIds(events) ==> DistinctIds(Filter(keep, events))
  {
    if events != [] {
      assert events == [events[0]] + events[1..];
      FilterOk(keep, events[1..]);
      if DistinctIds(events) {
        assert DistinctIds(events[1..]) by {
          forall i, j | 0 <= i < j < |events[1..]| ensures events[1..][i].eventId != events[1..][j].eventId {
            assert events[1..][i] == events[i + 1] && events[1..][j] == events[j + 1];
          }
        }
        var rest := Filter(keep, events[1..]);
        forall j | 0 <= j < |rest| ensures events[0].eventId != rest[j].eventId {
          assert rest[j] in rest;
          var k :| 0 <= k < |events[1..]| && events[1..][k] == rest[j];
          assert events[k + 1] == rest[j];
        }
      }
    }
  }

  /** Changing a task in place, without its kind, owner or a cleared notification. */
  lemma SetTaskKeeps(m: Manager, id: string, t: Task)
    requires Inv(m) && id in m.records
    requires t.kind == m.records[id].kind && t.owner == m.records[id].owner
    requires m.records[id].notified ==> t.notified
    requires t.done && id in m.workers ==> m.records[id].done
    ensures Inv(SetTask(m, id, t))
  {
    var m' := SetTask(m, id, t);
    forall taken | taken in m'.inflight ensures TakenOk(m', taken) { assert TakenOk(m, taken); }
  }

  lemma EnqueueKeeps(m: Manager, id: string, kind: EventKind)
    requires Inv(m) && id in m.records
    ensures Inv(Enqueue(m, id, kind))
  {
    var t, eid := m.records[id], EventId(id, kind);
    if !(t.notified && kind == Finished) {
      var m1 := if HasEvent(m.events, eid) then m
                else m.(events := m.events + [Event(eid, id, kind, t.owner, t.kind)],
                        announced := m.announced + if kind == Finished then [id] else []);
      var m' := Enqueue(m, id, kind);
      forall taken | taken in m'.inflight ensures TakenOk(m', taken) { assert TakenOk(m, taken); }
    }
  }

  lemma RemoveKeeps(m: Manager, id: string)
    requires Inv(m) && id !in m.workers && !HasPending(m.events, id)
    ensures Inv(m.(records := m.records - {id}))
  {
    var m' := m.(records := m.records - {id});
    forall e | e in m.events ensures e.taskId != id {
      var i :| 0 <= i < |m.events| && m.events[i] == e;
    }
    forall taken | taken in m'.inflight ensures TakenOk(m', taken) { assert TakenOk(m, taken); }
  }

  lemma {:induction false} EvictKeeps(m: Manager, todo: seq<string>, config: Config)
    requires Inv(m)
    ensures var r := Evict(m, todo, config);
            Inv(r) && r.events == m.events && r.used == m.used && r.workers == m.workers && r.run == m.run
            && r.inflight == m.inflight && r.announced == m.announced && r.records.Keys <= m.records.Keys
    decreases |todo|
  {
    if todo != [] && |m.records| >= config.maxRecords {
      if Evictable(m, todo[0]) {
        RemoveKeeps(m, todo[0]);
        EvictKeeps(m.(records := m.records - {todo[0]}), todo[1..], config);
      } else {
        EvictKeeps(m, todo[1..], config);
      }
    }
  }

  lemma RegisterKeeps(m: Manager, id: string, t: Task)
    requires Inv(m) && id !in m.used
    ensures Inv(Register(m, id, t))
  {
    var m' := Register(m, id, t);
    forall taken | taken in m'.inflight ensures TakenOk(m', taken) { assert TakenOk(m, taken); }
  }

  lemma SelectKeeps(m: Manager, keep: Event -> bool, run: string, inflight: multiset<seq<Event>>)
    requires Inv(m) && forall taken :: taken in inflight ==> TakenOk(m, taken)
    ensures Inv(m.(run := run, events := Filter(keep, m.events), inflight := inflight))
  {
    FilterOk(keep, m.events);
    var m' := m.(run := run, events := Filter(keep, m.events), inflight := inflight);
    forall taken | taken in m'.inflight ensures TakenOk(m', taken) { assert TakenOk(m, taken); }
  }

  lemma RestoreKeeps(m: Manager, taken: seq<Event>)
    requires Inv(m) && TakenOk(m, taken)
    requires forall e :: e in taken ==> HasEvent(m.events, e.eventId) || e.taskId in m.records
    ensures Consistent(m.records, Restored(m.events, taken)) && DistinctIds(Restored(m.events, taken))
  {
    var missing := Filter(AbsentFrom(m.events), taken);
    FilterOk(AbsentFrom(m.events), taken);
    forall i, j | 0 <= i < |missing| && 0 <= j < |m.events| ensures missing[i].eventId != m.events[j].eventId {
      assert missing[i] in missing;
    }
  }

  // ----- Every step keeps the invariant, rollbacks under an exact condition

  /** What two rollbacks need: no notice of the shell that is forgotten, no forgotten task of a notice
      that is restored. */
  ghost predicate RollbackSafe(m: Manager, step: Step) {
    match step
    case UnregisterShell(id) => !HasPending(m.events, id)
    case AckRestore(taken) => forall e :: e in taken ==> HasEvent(m.events, e.eventId) || e.taskId in m.records
    case _ => true
  }

  lemma TaskStepKeeps(m: Manager, step: Step, config: Config)
    requires Inv(m) && Enabled(m, step) && m.workers <= m.records.Keys
    requires step.SetBackground? || step.Withdraw? || step.ShellState? || step.ProcessDone? || step.Launch? ||
        step.EndUnlaunched?
    ensures Inv(Next(m, step, config))
  {
    var id := step.id;
    if step.Launch? {
      var m' := m.(workers := m.workers + {id});
      forall taken | taken in m'.inflight ensures TakenOk(m', taken) { assert TakenOk(m, taken); }
    } else if id in m.records {
      var t := m.records[id];
      if step.EndUnlaunched? {
        if t.kind != Shell && !t.done {
          DismissKeeps(m, id);
          SetTaskKeeps(m.(workers := m.workers - {id}), id, t.(state := Stopped, done := true));
        }
      } else if step.SetBackground? {
        SetTaskKeeps(m, id, t.(backgrounded := true));
      } else if step.Withdraw? {
        SetTaskKeeps(m, id, t.(required := false));
      } else if t.kind == Shell {
        SetTaskKeeps(m, id, if step.ProcessDone? then t.(done := true) else t.(state := step.state));
      }
    }
  }

  lemma DismissKeeps(m: Manager, id: string)
    requires Inv(m)
    ensures Inv(m.(workers := m.workers - {id}))
  {
    var m' := m.(workers := m.workers - {id});
    forall taken | taken in m'.inflight ensures TakenOk(m', taken) { assert TakenOk(m, taken); }
  }

  lemma NoticeStepKeeps(m: Manager, step: Step, config: Config)
    requires Inv(m) && Enabled(m, step) && m.workers <= m.records.Keys
    requires step.Stalled? || step.ShellFinished? || step.MarkBackground? || step.AgentFinished?
    ensures Inv(Next(m, step, config))
  {
    var id := step.id;
    if id in m.records {
      var t := m.records[id];
      if step.Stalled? {
        EnqueueKeeps(m, id, InteractiveInput);
      } else if step.ShellFinished? {
        var t' := t.(state := step.state);
        SetTaskKeeps(m, id, t');
        EnqueueKeeps(SetTask(m, id, t'), id, Finished);
      } else if step.AgentFinished? {
        var idle, t' := m.(workers := m.workers - {id}), t.(state := step.state, done := true);
        DismissKeeps(m, id);
        SetTaskKeeps(idle, id, t');
        EnqueueKeeps(SetTask(idle, id, t'), id, Finished);
      } else {
        MarkedKeeps(m, id, step.stalledTail, step.state);
      }
    }
  }

  lemma FlaggedKeeps(m: Manager, id: string, stalledTail: bool)
    requires Inv(m) && id in m.records
    ensures Inv(Flagged(m, id, stalledTail)) && id in Flagged(m, id, stalledTail).records
  {
    var m1 := SetTask(m, id, m.records[id].(backgrounded := true));
    SetTaskKeeps(m, id, m.records[id].(backgrounded := true));
    EnqueueKeeps(m1, id, InteractiveInput);
  }

  lemma SetThenEnqueueKeeps(m: Manager, id: string, t: Task)
    requires Inv(m) && id in m.records
    requires t.kind == m.records[id].kind && t.owner == m.records[id].owner
    requires t.notified == m.records[id].notified && t.done == m.records[id].done
    ensures Inv(Enqueue(SetTask(m, id, t), id, Finished))
  {
    SetTaskKeeps(m, id, t);
    EnqueueKeeps(SetTask(m, id, t), id, Finished);
  }

  lemma ConcludedKeeps(m: Manager, id: string, state: TaskState)
    requires Inv(m) && id in m.records
    ensures Inv(Concluded(m, id, state))
  {
    var t := m.records[id];
    if t.done { SetThenEnqueueKeeps(m, id, if t.kind == Shell then t.(state := state) else t); }
  }

  lemma MarkedKeeps(m: Manager, id: string, stalledTail: bool, state: TaskState)
    requires Inv(m) && id in m.records
    ensures Inv(Marked(m, id, stalledTail, state))
  {
    FlaggedKeeps(m, id, stalledTail);
    ConcludedKeeps(Flagged(m, id, stalledTail), id, state);
  }

  lemma OutboxStepKeeps(m: Manager, step: Step, config: Config)
    requires Inv(m) && Enabled(m, step) && m.workers <= m.records.Keys && RollbackSafe(m, step)
    requires step.BeginRun? || step.AckTake? || step.AckDone? || step.AckRestore?
    ensures Inv(Next(m, step, config))
  {
    if step.BeginRun? {
      SelectKeeps(m, OwnedBy(step.run), step.run, m.inflight);
    } else if step.AckTake? {
      var ids := step.ids;
      var taken := Filter(IdIn(ids), m.events);
      FilterOk(IdIn(ids), m.events);
      assert TakenOk(m, taken);
      SelectKeeps(m, IdNotIn(ids), m.run, m.inflight + multiset{taken});
    } else {
      if step.AckRestore? { RestoreKeeps(m, step.taken); }
      var m' := Next(m, step, config);
      forall other | other in m'.inflight ensures TakenOk(m', other) { assert TakenOk(m, other); }
    }
  }

  lemma StartingIrrelevant(m: Manager, starting: set<string>)
    requires Inv(m)
    ensures Inv(m.(starting := starting))
  {
    var m' := m.(starting := starting);
    forall taken | taken in m'.inflight ensures TakenOk(m', taken) { assert TakenOk(m, taken); }
  }

  lemma RecordStepKeeps(m: Manager, step: Step, config: Config)
    requires Inv(m) && Quiet(m) && Enabled(m, step) && m.workers <= m.records.Keys && RollbackSafe(m, step)
    requires step.EnsureCapacity? || step.RegisterShell? || step.UnregisterShell? || step.UnregisterAgent? ||
        step.AgentSaved?
    ensures Inv(Next(m, step, config))
  {
    if step.EnsureCapacity? {
      EvictKeeps(m, step.todo, config);
    } else if step.RegisterShell? {
      RegisterKeeps(m, step.id, Task(Shell, m.run, step.state, false, true, false, step.done));
    } else if step.AgentSaved? {
      StartingIrrelevant(m, m.starting - {step.id});
    } else {
      RemoveKeeps(m, step.id);
      StartingIrrelevant(m.(records := m.records - {step.id}), m.starting - {step.id});
    }
  }

  lemma StartKeeps(m: Manager, id: string, kind: Kind, background: bool, todo: seq<string>, config: Config)
    requires Inv(m) && id !in m.used && kind != Shell
    ensures m.workers <= m.records.Keys && Inv(Next(m, StartAgent(id, kind, background, todo), config))
  {
    EvictKeeps(m, todo, config);
    var m1 := Evict(m, todo, config);
    var t := Task(kind, m.run, Running, background, true, false, false);
    RegisterKeeps(m1, id, t);
    StartingIrrelevant(Register(m1, id, t), m.starting + {id});
  }

  /** The invariant survives every step a scheduler can choose; of the rollbacks, forgetting a shell
      and restoring events need their condition, forgetting an agent needs none. */
  lemma StepKeepsInv(m: Manager, step: Step, config: Config)
    requires Inv(m) && Quiet(m) && Enabled(m, step) && RollbackSafe(m, step)
    ensures m.workers <= m.records.Keys && Inv(Next(m, step, config)) && Quiet(Next(m, step, config))
  {
    StepKeepsQuiet(m, step, config);
    if step.BeginRun? || step.AckTake? || step.AckDone? || step.AckRestore? {
      OutboxStepKeeps(m, step, config);
    } else if step.StartAgent? {
      StartKeeps(m, step.id, step.kind, step.background, step.todo, config);
    } else if step.EnsureCapacity? || step.RegisterShell? || step.UnregisterShell? || step.UnregisterAgent? ||
        step.AgentSaved? {
      RecordStepKeeps(m, step, config);
    } else if step.Stalled? || step.ShellFinished? || step.MarkBackground? || step.AgentFinished? {
      NoticeStepKeeps(m, step, config);
    } else {
      TaskStepKeeps(m, step, config);
    }
  }

  // ----- Agents stay quiet until their first save is over

  /** Events of m' are events of m or about `id`; so for the taken ones. */
  ghost predicate OnlyAbout(m: Manager, m': Manager, id: string) {
    && (forall e :: e in m'.events ==> e in m.events || e.taskId == id)
    && m'.inflight == m.inflight && m'.used >= m.used && m'.workers <= m.workers + {id}
    && m'.starting == m.starting
  }

  lemma OnlyAboutKeeps(m: Manager, m': Manager, id: string)
    requires Quiet(m) && OnlyAbout(m, m', id) && id !in m.starting
    ensures Quiet(m')
  {}

  lemma EnqueueOnlyAbout(m: Manager, id: string, kind: EventKind)
    requires id in m.records
    ensures OnlyAbout(m, Enqueue(m, id, kind), id) && id in Enqueue(m, id, kind).records
  {}

  lemma OnlyAboutTwice(a: Manager, b: Manager, c: Manager, id: string)
    requires OnlyAbout(a, b, id) && OnlyAbout(b, c, id)
    ensures OnlyAbout(a, c, id)
  {}

  lemma NoticeStepAbout(m: Manager, step: Step, config: Config)
    requires Enabled(m, step) && m.workers <= m.records.Keys
    requires step.Stalled? || step.ShellFinished? || step.AgentFinished?
    ensures OnlyAbout(m, Next(m, step, config), step.id)
  {
    var id := step.id;
    if id in m.records {
      if step.Stalled? {
        EnqueueOnlyAbout(m, id, InteractiveInput);
      } else {
        var t := m.records[id];
        var m1 := if step.ShellFinished? then SetTask(m, id, t.(state := step.state))
                  else SetTask(m, id, t.(state := step.state, done := true)).(workers := m.workers - {id});
        EnqueueOnlyAbout(m1, id, Finished);
      }
    }
  }

  lemma MarkedAbout(m: Manager, id: string, stalledTail: bool, state: TaskState)
    requires id in m.records
    ensures OnlyAbout(m, Marked(m, id, stalledTail, state), id)
  {
    var m1 := SetTask(m, id, m.records[id].(backgrounded := true));
    EnqueueOnlyAbout(m1, id, InteractiveInput);
    var m2 := Flagged(m, id, stalledTail);
    assert OnlyAbout(m, m2, id);
    var t := m2.records[id];
    var m3 := SetTask(m2, id, if t.kind == Shell then t.(state := state) else t);
    EnqueueOnlyAbout(m3, id, Finished);
    OnlyAboutTwice(m, m2, Concluded(m2, id, state), id);
  }

  lemma OutboxStepQuiet(m: Manager, step: Step, config: Config)
    requires Quiet(m) && Enabled(m, step) && m.workers <= m.records.Keys
    requires step.BeginRun? || step.AckTake? || step.AckDone? || step.AckRestore?
    ensures Quiet(Next(m, step, config))
  {
    if step.BeginRun? {
      FilterOk(OwnedBy(step.run), m.events);
    } else if step.AckTake? {
      FilterOk(IdNotIn(step.ids), m.events);
      FilterOk(IdIn(step.ids), m.events);
    } else if step.AckRestore? {
      FilterOk(AbsentFrom(m.events), step.taken);
    }
  }

  lemma {:induction false} EvictQuiet(m: Manager, todo: seq<string>, config: Config)
    ensures Evict(m, todo, config).starting == m.starting
    decreases |todo|
  {
    if todo != [] && |m.records| >= config.maxRecords {
      EvictQuiet(if Evictable(m, todo[0]) then m.(records := m.records - {todo[0]}) else m, todo[1..], config);
    }
  }

  lemma StartQuiet(m: Manager, step: Step, config: Config)
    requires Inv(m) && Quiet(m) && Enabled(m, step) && step.StartAgent?
    ensures m.workers <= m.records.Keys && Quiet(Next(m, step, config))
  {
    EvictKeeps(m, step.todo, config);
    EvictQuiet(m, step.todo, config);
    assert forall taken :: taken in m.inflight ==> TakenOk(m, taken);
    assert Unheard(m, step.id);
  }

  lemma StepKeepsQuiet(m: Manager, step: Step, config: Config)
    requires Inv(m) && Quiet(m) && Enabled(m, step)
    ensures m.workers <= m.records.Keys && Quiet(Next(m, step, config))
  {
    if step.BeginRun? || step.AckTake? || step.AckDone? || step.AckRestore? {
      OutboxStepQuiet(m, step, config);
    } else if step.StartAgent? {
      StartQuiet(m, step, config);
    } else if step.EnsureCapacity? {
      EvictKeeps(m, step.todo, config);
      EvictQuiet(m, step.todo, config);
    } else if step.Stalled? || step.ShellFinished? || step.AgentFinished? {
      NoticeStepAbout(m, step, config);
      OnlyAboutKeeps(m, Next(m, step, config), step.id);
    } else if step.MarkBackground? {
      if step.id in m.records { MarkedAbout(m, step.id, step.stalledTail, step.state); }
      OnlyAboutKeeps(m, Next(m, step, config), step.id);
    } else {
      assert Next(m, step, config).events == m.events && Next(m, step, config).inflight == m.inflight;
    }
  }

  /** The condition is exact: an unsafe rollback always leaves a state that `load` would refuse. */
  lemma UnsafeRollbackBreaks(m: Manager, step: Step, config: Config)
    requires Inv(m) && Enabled(m, step) && !RollbackSafe(m, step) && m.workers <= m.records.Keys
    ensures !Consistent(Next(m, step, config).records, Next(m, step, config).events)
  {
    var m' := Next(m, step, config);
    if step.AckRestore? {
      var e :| e in step.taken && !HasEvent(m.events, e.eventId) && e.taskId !in m.records;
      FilterOk(AbsentFrom(m.events), step.taken);
      assert e in m'.events;
    } else {
      var i :| 0 <= i < |m.events| && m.events[i].taskId == step.id;
      assert m.events[i] in m'.events;
    }
  }

  // ----- Whole runs

  const FRESH := Manager("standalone", map[], [], {}, {}, multiset{}, {}, [])

  /** A run: any steps in any order, each possible when it happens and no unsafe rollback. */
  ghost predicate Run(m: Manager, steps: seq<Step>, config: Config)
    decreases |steps|
  {
    steps == [] || (
      && Enabled(m, steps[0]) && RollbackSafe(m, steps[0]) && m.workers <= m.records.Keys
      && Run(Next(m, steps[0], config), steps[1..], config))
  }

  ghost function Final(m: Manager, steps: seq<Step>, config: Config): Manager
    requires Run(m, steps, config)
    decreases |steps|
  {
    if steps == [] then m else Final(Next(m, steps[0], config), steps[1..], config)
  }

  lemma {:induction false} RunKeepsInv(m: Manager, steps: seq<Step>, config: Config)
    requires Inv(m) && Quiet(m) && Run(m, steps, config)
    ensures Inv(Final(m, steps, config)) && Quiet(Final(m, steps, config))
    decreases |steps|
  {
    if steps != [] {
      StepKeepsInv(m, steps[0], config);
      RunKeepsInv(Next(m, steps[0], config), steps[1..], config);
    }
  }

  /** After every run each pending event is about a task on record, and says its owner and its kind. */
  lemma OutboxIsTrue(m: Manager, steps: seq<Step>, config: Config)
    requires Inv(m) && Quiet(m) && Run(m, steps, config)
    ensures var r := Final(m, steps, config);
            forall e :: e in r.events ==>
              && e.taskId in r.records && e.eventId == e.taskId + ":" + KindName(e.kind)
              && e.owner == r.records[e.taskId].owner && e.taskType == r.records[e.taskId].kind
  {
    RunKeepsInv(m, steps, config);
  }
}
